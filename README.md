# jops core in Dafny

This project models the core of `jops`, a small Rust library for addressing JSON values:

- **`JsonPath`** (`src/json_path.rs`). It parses path expressions such as `$.a[#-4].b[3]` or the shorthand `3` into a sequence of `Field(name)` and `Index(NthLefth n | NthRight n)` elements, renders elements back to text, and walks a path over a value tree: `find`, `find_mut`, `insert`, `last`, and the `path`/`path_mut` queries.
- **The cross-type comparator** (`src/value.rs`). `partial_cmp` orders any two JSON values. Equal values compare Equal, so Null equals Null, but Null is incomparable with anything else. Booleans and numbers are cast to each other. A number and a string compare numerically when the string parses; otherwise whichever comes first is Less. The remaining kinds are ranked Bool < String < Array/Object and Number < Array/Object. The `JsonValue` wrapper's `PartialOrd` delegates to it.

Modules:

- `Wrappers` holds `Option` and `Result`.
- `Json` holds serde_json's `Value`: `Null | Bool | Number | String | Array(seq) | Object(map)`, where a number is a `u64`, a negative `i64` or a float.
- `ValueOrder` holds the comparator.
- `JsonPathSyntax` holds the path grammar. The parser (`FromStr`) is a scanning method proved equal to the function `Parse`. The text form of a path is `Render`, built from the element `ToString`s.
- `JsonPathNavigation` holds `find`, `find_mut` and `insert` as methods, with `path` and `path_mut` on top. `Find` is proved against `Resolve`. `FindMut` is proved against `Locate`. `Insert` is proved against `Inserted`.

A `&mut Value` into the tree is modelled as a `Location`: the list of object keys and array positions leading from the root to that value. Writing through the reference is `Replace`, which produces the tree with a new value at that location. `Insert` therefore takes the tree and returns the tree that the call leaves behind.

The comparator depends on two things that are not observable from the value alone. Both are passed in an `Env` parameter:

- `str::parse::<f64>`, as a partial function from strings to `F64` (finite, ±infinity or NaN);
- `size_of_val` of the array and object headers, as two sizes.

## Model

| member | source | states |
|---|---|---|
| ValueOrder.PartialCmp | src/value.rs:16-80 | Equal values compare Equal. Any unequal pair involving Null is incomparable. Bools compare false < true. Distinct strings compare lexicographically. The kind ranking gives Less one way and Greater the other. Bool against Number compares the number's f64 with 0 or 1, in either order. |
| ValueOrder.JsonValue.PartialOrd | src/value.rs:92-96 | The wrapper's ordering is exactly the comparator applied to the two wrapped values. |
| ValueOrder.CmpBool | src/value.rs:24 | `bool::cmp`: Equal iff the same, Less iff false against true. |
| ValueOrder.CmpF64 | src/value.rs:31-32 | f64 `partial_cmp`: None exactly when either side is NaN; finite values compare as reals; +infinity is above and -infinity below every other non-NaN value, and each infinity equals itself. |
| ValueOrder.CmpF64Converse | src/value.rs:31-32 | Swapping two doubles reverses their order, and NaN stays incomparable. |
| ValueOrder.AsI64 | src/value.rs:27 | `as_i64` is Some exactly for an integer that fits in an i64, and then holds that integer. |
| ValueOrder.AsU64 | src/value.rs:29 | `as_u64` is Some exactly for a non-negative integer, and then holds that integer. |
| ValueOrder.LexCmpEqual | src/value.rs:37 | String comparison is Equal exactly for equal strings. |
| ValueOrder.LexCmpConverse | src/value.rs:37 | Swapping two strings reverses their order. |
| ValueOrder.LexCmpPrefix | src/value.rs:37 | A string is below every proper extension of itself. |
| ValueOrder.NumberVsUnparsableIsLessBothWays | src/value.rs:50-65 | A number against a string that does not parse gives Less in both argument orders, so the comparator is not antisymmetric. |
| ValueOrder.NumberVsParsable | src/value.rs:50-65 | A number against a string that parses compares numerically with the parsed f64, in either order. |
| ValueOrder.IntegersCompareExactly | src/value.rs:25-36 | Two integer numbers compare by exact integer order: through the i64 view when both fit, the u64 view when both are non-negative, and otherwise (a `u64` above `i64::MAX` against a negative integer) through the f64 branch, which the exact `as_f64` makes exact as well. |
| ValueOrder.PartialCmpConverse | src/value.rs:16-80 | Except for the number/unparsable-string pairs, swapping the arguments flips the result. |
| ValueOrder.PartialCmpIntended | src/value.rs:58-64 | The comparator with the String-against-Number fallback corrected: it agrees with `partial_cmp` everywhere except on a string before a number, where it is the mirror of the number-before-string comparison. |
| ValueOrder.PartialCmpIntendedConverse | src/value.rs:11 | With that correction, swapping the arguments reverses the answer on every pair of values. |
| ValueOrder.StringNumberFallbackExample | src/value.rs:50-64 | When `"abc"` does not parse, `0` and `"abc"` are each Less than the other under `partial_cmp`; the corrected comparator puts `0` below `"abc"` in both orders. |
| ValueOrder.ContainersCompareByKind | src/value.rs:74-78 | Containers compare only by header size: any two arrays are Equal, and an array against an object compares the two header sizes. |
| ValueOrder.ComparatorNullExamples | src/value.rs:124-137 | All thirteen Null cases of the repository's comparator test. |
| ValueOrder.ComparatorBoolExamples | src/value.rs:138-155 | All thirteen Bool cases of the repository's comparator test. |
| JsonPathSyntax.Last | src/json_path.rs:45-48 | `last` is None exactly for the empty path; otherwise the path is its front followed by the returned element. |
| JsonPathSyntax.IndexToStringDigits | src/json_path.rs:29-36 | `NthLefth(n)`'s text is a non-empty run of digits that parses to n; `NthRight(n)`'s text is `#-` followed by such a run. |
| JsonPathSyntax.ElementToStringReadBack | src/json_path.rs:14-21 | An element's text, after `.` for a letters-only field or between `[` and `]` for an index, is read back by one scanner step as the same element. |
| JsonPathSyntax.NatToString | src/json_path.rs:32 | `usize::to_string` is never empty. |
| JsonPathSyntax.NatToStringParses | src/json_path.rs:29-36 | An index's decimal text is all digits and parses back to the same number. |
| JsonPathSyntax.LetterEnd | src/json_path.rs:159-161 | The field scan stops within the input, at the end or at a non-letter. |
| JsonPathSyntax.DigitEnd | src/json_path.rs:173-175 | The digit scan stops within the input, at the end or at a non-digit. |
| JsonPathSyntax.LetterRun | src/json_path.rs:159-161 | Everything the field scan consumes is a letter. |
| JsonPathSyntax.DigitRun | src/json_path.rs:173-175 | Everything the digit scan consumes is a digit. |
| JsonPathSyntax.ParseElement | src/json_path.rs:156-190 | One element consumes at least one character and stays within the input. It fails only with "expected ]" or "expected . or [". |
| JsonPathSyntax.ScanLetters | src/json_path.rs:158-161 | The `next_if` loop collects exactly the letters up to the end of the run and stops there. |
| JsonPathSyntax.ScanDigits | src/json_path.rs:172-175 | The `next_if` loop collects exactly the digits up to the end of the run and stops there. |
| JsonPathSyntax.ScanElement | src/json_path.rs:156-190 | One turn of the parser loop yields the element and position that `ParseElement` defines. |
| JsonPathSyntax.FromStr | src/json_path.rs:137-193 | The scanner returns exactly `Parse(value)`. |
| JsonPathSyntax.RoundTrip | src/json_path.rs:155-192 | For any path whose field names are letters, parsing its rendering (`$`, `.name` per field, `[` + index text + `]` per index) gives the path back. |
| JsonPathSyntax.ParseRenderedElement | src/json_path.rs:14-36 | Each element's `ToString`, written in its `.`/`[...]` frame, is read back by one parser step as the same element. |
| JsonPathSyntax.ParsedElementsAreLetters | src/json_path.rs:158-162 | Every field name the parser produces consists of letters. |
| JsonPathSyntax.RenderParsed | src/json_path.rs:14-36 | Every successfully parsed path has letter-only names, and rendering it and parsing again gives the same result. |
| JsonPathSyntax.ElementErrors | src/json_path.rs:176-190 | Past the root, the parser fails only with "expected ]" or "expected . or [". |
| JsonPathSyntax.ParseErrors | src/json_path.rs:151 | "expected $ or numeric" arises exactly when the input is empty or starts with neither `$` nor a digit. No error other than the three messages occurs. |
| JsonPathSyntax.DigitShorthand | src/json_path.rs:142-149 | A leading digit run parses to the single element `NthLefth(run)`, whatever follows it. |
| JsonPathSyntax.UnclosedIndex | src/json_path.rs:176-178 | A `[` whose digit run is not followed by `]` fails with "expected ]". |
| JsonPathSyntax.UnexpectedCharacter | src/json_path.rs:190 | Where `.`, `[` or the end is expected, any other character fails with "expected . or [". |
| JsonPathSyntax.ParseLeftDigits | src/json_path.rs:165-186 | `[d]`, for any run of digits d (leading zeros or empty included), reads as `NthLefth` of d's value. |
| JsonPathSyntax.ParseHashDigits | src/json_path.rs:165-186 | `[#d]` without the `-`, for any run of digits d, reads as `NthRight` of d's value. |
| JsonPathSyntax.ParseHashMinusDigits | src/json_path.rs:165-186 | `[#-d]`, for any run of digits d, reads as `NthRight` of d's value. |
| JsonPathSyntax.ParseLeadingZerosExamples | src/json_path.rs:172-186 | `$[#007]` parses to `NthRight(7)` and `$[01]` to `NthLefth(1)`. |
| JsonPathSyntax.EmptyDigitRun | src/json_path.rs:165-186 | An empty digit run reads as 0: `[]` is `NthLefth(0)`, and `[#]` and `[#-]` are `NthRight(0)`. |
| JsonPathSyntax.ParseExampleRoot | src/json_path.rs:233 | `$` is the empty path. |
| JsonPathSyntax.ParseExampleField | src/json_path.rs:240-243 | `$.a` parses to one field. |
| JsonPathSyntax.ParseExampleTwoFields | src/json_path.rs:244-250 | `$.a.b` parses to two fields. |
| JsonPathSyntax.ParseExampleThreeFields | src/json_path.rs:251-258 | `$.abc.bc.cbc` parses to three fields. |
| JsonPathSyntax.ParseExampleIndex | src/json_path.rs:259-264 | `$[4]` parses to `NthLefth(4)`. |
| JsonPathSyntax.ParseExampleTwoIndices | src/json_path.rs:265-271 | `$[4][3]` parses to two indices. |
| JsonPathSyntax.ParseExampleMixed | src/json_path.rs:272-280 | `$.a[4].b[3]` parses to the four elements. |
| JsonPathSyntax.ParseExampleMixedFromEnd | src/json_path.rs:281-289 | `$.a[#-4].b[3]` parses with `NthRight(4)`. |
| JsonPathSyntax.ParseBareReverseIndexExample | src/json_path.rs:290-296 | `$.a[#]` parses with `NthRight(0)`. |
| JsonPathSyntax.ParseExampleNested | src/json_path.rs:321 | `$.a[#-1].b[0].test` parses to five elements, with `NthRight(1)` and `NthLefth(0)`. |
| JsonPathSyntax.ParseErrorExamples | src/json_path.rs:297-301 | `.a`, `a` and `[0]` give "expected $ or numeric", `$0]` gives "expected . or [", and `$[12` gives "expected ]". |
| JsonPathSyntax.ParseShorthandExamples | src/json_path.rs:234-239 | `3` and `12x` each parse to one `NthLefth`. |
| JsonPathSyntax.ParseEmptyIndexExample | src/json_path.rs:165-186 | `$[]` has an empty digit run and parses to `NthLefth(0)`. |
| JsonPathSyntax.ParseEmptyReverseIndexExample | src/json_path.rs:165-186 | `$[#-]` parses to `NthRight(0)`. |
| JsonPathNavigation.SlotOf | src/json_path.rs:53-59 | The child an element selects is always present in the container. |
| JsonPathNavigation.Find | src/json_path.rs:50-67 | The loop that moves the cursor returns exactly `Resolve(p, root)`. |
| JsonPathNavigation.FindMut | src/json_path.rs:69-89 | The loop returns exactly `Locate(p, root)`, the location of the reached value. |
| JsonPathNavigation.FindAndFindMutAgree | src/json_path.rs:69-89 | `find_mut` fails exactly when `find` does. Otherwise its location has one slot per element and holds the value `find` returns. |
| JsonPathNavigation.ResolveAppend | src/json_path.rs:52-65 | The elements are applied left to right: one more element takes one more step from the shorter path's result. |
| JsonPathNavigation.ResolveFails | src/json_path.rs:60-64 | Once a prefix fails, every longer path fails. |
| JsonPathNavigation.NthRightCountsFromEnd | src/json_path.rs:56-58 | `NthRight(i)` selects something iff `1 <= i <= len`, and then it is `NthLefth(len - i)`; `NthRight(1)` is the last element. |
| JsonPathNavigation.NthRightZeroNeverResolves | src/json_path.rs:56-58 | No path through `NthRight(0)` resolves, in any tree. |
| JsonPathNavigation.GetNeedsMatchingContainer | src/json_path.rs:54-55 | `Field(k)` selects exactly in an object holding `k`, giving its entry. `NthLefth(i)` selects exactly in an array with `i < len`, giving element `i`. Any index needs a non-empty array. |
| JsonPathNavigation.ResolveReplaced | src/json_path.rs:93-99 | After writing through the reference `find_mut` returned, the same path reaches the written value. |
| JsonPathNavigation.ReplaceFrame | src/json_path.rs:93-99 | Writing through a reference leaves every location that diverges from it unchanged. |
| JsonPathNavigation.Insert | src/json_path.rs:91-132 | `insert` returns exactly `Inserted(p, root, v)`. The tree it leaves is the returned tree on success and the untouched input on failure. |
| JsonPathNavigation.InsertFailureCases | src/json_path.rs:92-131 | Success needs a non-empty path and a resolvable parent, paired as array with index or as object with field. |
| JsonPathNavigation.InsertIntoArray | src/json_path.rs:95-103 | `NthLefth(i)` succeeds iff `i <= len`. The parent becomes `a[..i] + [v] + a[i..]`, and the same path then finds `v`. |
| JsonPathNavigation.InsertIntoArrayFromEnd | src/json_path.rs:104-115 | `NthRight(i)` succeeds iff `i <= len` and inserts at `len - i`. `NthRight(0)` appends, and the new element is `NthRight(i + 1)`. |
| JsonPathNavigation.InsertIntoObject | src/json_path.rs:116-123 | `Field(k)` succeeds iff `k` is absent, so an entry is never overwritten. The object becomes `m[k := v]`, and the path then finds `v`. |
| JsonPathNavigation.InsertFrame | src/json_path.rs:93-120 | A successful insert leaves every location that diverges from the parent's location unchanged. |
| JsonPathNavigation.Path | src/json_path.rs:211-215 | `path` returns exactly `Query`: a parse error as is, a failed lookup as "unable to find path to value", otherwise the value. |
| JsonPathNavigation.PathMut | src/json_path.rs:217-221 | `path_mut` returns exactly `QueryMut`: the same errors, or the location of the value. |
| JsonPathNavigation.PathAndPathMutAgree | src/json_path.rs:210-221 | `path` and `path_mut` fail with the same message or succeed together, and the location holds the value. |
| JsonPathNavigation.PathErrors | src/json_path.rs:212-214 | `path` fails only with the three parse messages or the lookup message. The lookup message means the query parsed and did not resolve. |
| JsonPathNavigation.PathExampleRoot | src/json_path.rs:317 | `$` on `{}` gives `{}`. |
| JsonPathNavigation.PathExampleField | src/json_path.rs:318 | `$.a` gives `"example"`; `path_mut` gives its location. |
| JsonPathNavigation.PathExampleIndex | src/json_path.rs:319 | `$[0]` on `[0,1,2,3]` gives 0, at position 0. |
| JsonPathNavigation.PathExampleFromEnd | src/json_path.rs:320 | `$[#-1]` on `[0,1,2,3]` gives 3, at position 3. |
| JsonPathNavigation.PathExampleNested | src/json_path.rs:321-334 | `$.a[#-1].b[0].test` on the nested tree gives `"example"`, and `path_mut` gives its location. |
| JsonPathNavigation.PathExampleShorthand | src/json_path.rs:335 | `1` on `[1,2,4]` gives 2, at position 1. |
| JsonPathNavigation.PathExampleMissing | src/json_path.rs:336 | `$[2]` on `[1]` fails with the lookup message, for `path` and `path_mut`. |
| JsonPathNavigation.InsertExampleField | src/json_path.rs:368-373 | Inserting `a` into `{}` gives `{"a": "test"}`. |
| JsonPathNavigation.InsertExampleIndex | src/json_path.rs:374-379 | `$.a.b[1]` inserts before the second element. |
| JsonPathNavigation.InsertExampleAppend | src/json_path.rs:380-385 | `$.a.b[#]` appends. |
| JsonPathNavigation.InsertExampleFromEnd | src/json_path.rs:386-391 | `$.a.b[#-3]` inserts at the front of a three-element array. |
| JsonPathNavigation.InsertExampleRefused | src/json_path.rs:392-409 | An existing key (never overwritten), and indices 1 and `#-3` into an empty array, are refused. |

## Findings

| source | as written | input that shows it | evidently intended | confidence | as-written member | corrected member |
|---|---|---|---|---|---|---|
| src/value.rs:58-64 | A string before a number falls back to `Less` when the string does not parse, as the number-before-string branch at 50-56 does, so both orders give `Less`. | `partial_cmp("abc", 0)` and `partial_cmp(0, "abc")` both give `Less`. | `Greater`, so that a number is always below a string it cannot be compared with (the doc comment at src/value.rs:11) and swapping the arguments reverses the answer. | medium, not executed | ValueOrder.NumberVsUnparsableIsLessBothWays | ValueOrder.PartialCmpIntendedConverse |

The comment at src/value.rs:8 also says that any comparison with Null gives None. The code's equality test at src/value.rs:17-18 comes first, so Null against Null is Equal (ComparatorNullExamples). The model follows the code. `JsonValue.PartialOrd` keeps the code's comparator, since it models the wrapper as written.

## Left out

- Replace, set and remove: `src/json_path.rs` has `insert` and no other mutation.
- `try_from` (src/json_path.rs:196-203) just delegates to `from_str`. `path`/`path_mut` call `FromStr` directly.
- serde_json's `Value` internals: objects are maps, and key order (BTreeMap or IndexMap) plays no part.
- Rust borrowing: `find_mut`'s `&mut Value` becomes a `Location`, and writing through it becomes `Replace` on an immutable tree. The in-place update, aliasing and the `rest.to_vec()` copy are not modelled.
- JsonPathSyntax.IsAlpha, JsonPathSyntax.IsNumeric: Unicode `is_alphabetic`/`is_numeric` are narrowed to ASCII letters and the digits 0-9.
- JsonPathSyntax.ParseUsize: `str::parse::<usize>().unwrap_or(0)` is unbounded. A digit run that overflows `usize` is not mapped to 0, and non-ASCII numeric characters do not occur.
- JsonPathNavigation.SlotOf: `a.len() - i` with `i > len` panics in debug builds and wraps around in release builds, after which `get` finds nothing. The model treats it as not found.
- JsonPathNavigation.Insert: the `i <= target.len()` test at src/json_path.rs:109 always holds after the guard at 105. It is kept, and its failure branch is unreachable.
- ValueOrder.AsF64: `as_f64` is exact. The rounding of large integers to the nearest f64 is not modelled, nor are float comparisons that it would change.
- ValueOrder.Env: `str::parse::<f64>` and `size_of_val` are parameters. The f64 grammar and the platform's header sizes are not modelled.
- `JsonValue::new`, `From<&Value>` and `Deref` (src/value.rs:86-113) only wrap and unwrap the reference.
- The derived `Debug`, `Default`, `PartialEq` and `Ord` impls, and the test harness, are not modelled.
