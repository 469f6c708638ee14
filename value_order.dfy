/** The cross-type comparator of src/value.rs: `partial_cmp` over two values and the
    `JsonValue` wrapper that exposes it as a partial order. */
module ValueOrder {
  import opened Wrappers
  import opened Json

  datatype Ordering = Less | Equal | Greater {
    function Reverse(): Ordering {
      match this
      case Less => Greater
      case Equal => Equal
      case Greater => Less
    }
  }

  /** Reverses a partial comparison; incomparable stays incomparable. */
  function Flip(o: Option<Ordering>): Option<Ordering> {
    match o
    case None => None
    case Some(x) => Some(x.Reverse())
  }

  /** An IEEE-754 double as a comparison sees it: a finite value, an infinity or NaN. */
  datatype F64 = Finite(r: real) | PosInfinity | NegInfinity | NaN

  /** What the comparator needs from the platform and that the model leaves open:
      - parseF64: Rust's `str::parse::<f64>`, `None` when the string is not a number;
      - arrayHeaderSize / objectHeaderSize: `size_of_val` of an array and of an object,
        which depends on the type only, never on the contents. */
  datatype Env = Env(parseF64: string -> Option<F64>, arrayHeaderSize: nat, objectHeaderSize: nat)

  function CmpReal(a: real, b: real): (r: Ordering)
    ensures r == Less <==> a < b
    ensures r == Greater <==> a > b
  {
    if a < b then Less else if a == b then Equal else Greater
  }

  /** Integers compare as the reals they embed into. */
  function CmpInt(a: int, b: int): (r: Ordering)
    ensures r == Less <==> a < b
    ensures r == Greater <==> a > b
  {
    CmpReal(a as real, b as real)
  }

  /** `bool::cmp`: false < true. */
  function CmpBool(a: bool, b: bool): (r: Ordering)
    ensures r == Equal <==> a == b
    ensures r == Less <==> !a && b
  {
    if a == b then Equal else if b then Less else Greater
  }

  /** `f64::partial_cmp`: NaN is incomparable, the infinities bound the finite values. */
  function CmpF64(x: F64, y: F64): (r: Option<Ordering>)
    ensures r.None? <==> x.NaN? || y.NaN?
    ensures x.Finite? && y.Finite? ==> r == Some(CmpReal(x.r, y.r))
    ensures x.PosInfinity? && !y.NaN? ==> r == Some(if y.PosInfinity? then Equal else Greater)
    ensures x.NegInfinity? && !y.NaN? ==> r == Some(if y.NegInfinity? then Equal else Less)
    ensures y.PosInfinity? && !x.NaN? ==> r == Some(if x.PosInfinity? then Equal else Less)
    ensures y.NegInfinity? && !x.NaN? ==> r == Some(if x.NegInfinity? then Equal else Greater)
  {
    if x.NaN? || y.NaN? then None
    else if x.Finite? && y.Finite? then Some(CmpReal(x.r, y.r))
    else Some(CmpInt(InfinityRank(x), InfinityRank(y)))
  }

  function InfinityRank(x: F64): int {
    match x
    case NegInfinity => -1
    case PosInfinity => 1
    case _ => 0
  }

  /** Swapping two doubles reverses their order; NaN stays incomparable. */
  lemma CmpF64Converse(x: F64, y: F64)
    ensures CmpF64(y, x) == Flip(CmpF64(x, y))
  {
  }

  /** `String::partial_cmp`: lexicographic order of the characters. */
  function LexCmp(a: string, b: string): Ordering {
    if a == [] then (if b == [] then Equal else Less)
    else if b == [] then Greater
    else if a[0] < b[0] then Less
    else if a[0] > b[0] then Greater
    else LexCmp(a[1..], b[1..])
  }

  /** The exact value of an integer number. */
  function IntegerOf(n: Number): int
    requires !n.Float?
  {
    match n
    case PosInt(u) => u
    case NegInt(i) => i
  }

  /** `Number::as_i64`: exactly the integers that fit in an i64, as themselves. */
  function AsI64(n: Number): (r: Option<int>)
    ensures r.Some? <==> !n.Float? && IntegerOf(n) <= I64_MAX
    ensures r.Some? ==> r.value == IntegerOf(n)
    ensures r.Some? ==> -0x8000_0000_0000_0000 <= r.value <= I64_MAX
  {
    match n
    case PosInt(u) => if u <= I64_MAX then Some(u) else None
    case NegInt(i) => Some(i)
    case Float(_) => None
  }

  /** `Number::as_u64`: exactly the non-negative integers, as themselves. */
  function AsU64(n: Number): (r: Option<int>)
    ensures r.Some? <==> n.PosInt?
    ensures r.Some? ==> r.value == n.u && 0 <= r.value
  {
    match n
    case PosInt(u) => Some(u)
    case _ => None
  }

  /** `Number::as_f64`, without the rounding of large integers (see README). */
  function AsF64(n: Number): Option<F64> {
    match n
    case PosInt(u) => Some(Finite(u as real))
    case NegInt(i) => Some(Finite(i as real))
    case Float(f) => Some(Finite(f))
  }

  /** `f64::from(bool)`. */
  function BoolToF64(b: bool): F64 {
    Finite(if b then 1.0 else 0.0)
  }

  /** Number against number: as i64 when both fit, else as u64, else as f64. */
  function CmpNumbers(x: Number, y: Number): Option<Ordering> {
    if AsI64(x).Some? && AsI64(y).Some? then Some(CmpInt(AsI64(x).value, AsI64(y).value))
    else if AsU64(x).Some? && AsU64(y).Some? then Some(CmpInt(AsU64(x).value, AsU64(y).value))
    else if AsF64(x).Some? && AsF64(y).Some? then CmpF64(AsF64(x).value, AsF64(y).value)
    else None
  }

  predicate IsContainer(v: Value) {
    v.Array? || v.Object?
  }

  /** `size_of_val` of a container: one size per container kind. */
  function HeaderSize(env: Env, v: Value): nat {
    if v.Array? then env.arrayHeaderSize else env.objectHeaderSize
  }

  /** The fixed type ranking of the documentation of partial_cmp: Bool below
      String, Array and Object; Number below Array and Object; String below Array
      and Object. Bool against Number and Number against String are cast instead. */
  predicate RankedBelow(a: Value, b: Value) {
    || (a.Bool? && (b.String? || IsContainer(b)))
    || (a.Number? && IsContainer(b))
    || (a.String? && IsContainer(b))
  }

  /** `partial_cmp(a, b)`. The first rule that applies decides. */
  function PartialCmp(env: Env, a: Value, b: Value): (r: Option<Ordering>)
    ensures a == b ==> r == Some(Equal)
    ensures a != b && (a.Null? || b.Null?) ==> r == None
    ensures a.Bool? && b.Bool? ==> r == Some(CmpBool(a.b, b.b))
    ensures a.String? && b.String? && a != b ==> r == Some(LexCmp(a.s, b.s))
    ensures RankedBelow(a, b) ==> r == Some(Less)
    ensures RankedBelow(b, a) ==> r == Some(Greater)
    ensures a.Bool? && b.Number? ==> r == CmpF64(BoolToF64(a.b), AsF64(b.num).value)
    ensures a.Number? && b.Bool? ==> r == CmpF64(AsF64(a.num).value, BoolToF64(b.b))
  {
    if a == b then Some(Equal)
    else match (a, b)
      case (_, Null) => None
      case (Null, _) => None
      case (Bool(x), Bool(y)) => Some(CmpBool(x, y))
      case (Number(x), Number(y)) => CmpNumbers(x, y)
      case (String(x), String(y)) => Some(LexCmp(x, y))
      case (Number(x), Bool(y)) =>
        if AsF64(x).Some? then CmpF64(AsF64(x).value, BoolToF64(y)) else None
      case (Bool(x), Number(y)) =>
        if AsF64(y).Some? then CmpF64(BoolToF64(x), AsF64(y).value) else None
      case (Bool(_), _) => Some(Less)
      case (_, Bool(_)) => Some(Greater)
      case (Number(x), String(y)) =>
        var parsed := env.parseF64(y);
        if AsF64(x).Some? && parsed.Some? then CmpF64(AsF64(x).value, parsed.value) else Some(Less)
      case (String(x), Number(y)) =>
        var parsed := env.parseF64(x);
        if AsF64(y).Some? && parsed.Some? then CmpF64(parsed.value, AsF64(y).value) else Some(Less)
      case (Number(_), _) => Some(Less)
      case (_, Number(_)) => Some(Greater)
      case (String(_), _) => Some(Less)
      case (_, String(_)) => Some(Greater)
      case _ => Some(CmpInt(HeaderSize(env, a), HeaderSize(env, b)))
  }

  /** `JsonValue`, the wrapper that lends a value the comparator as its
      partial order. */
  datatype JsonValue = JsonValue(value: Value) {
    /** The `PartialOrd` implementation: the comparator on the wrapped values. */
    function PartialOrd(env: Env, other: JsonValue): (r: Option<Ordering>)
      ensures r == PartialCmp(env, value, other.value)
    {
      PartialCmp(env, value, other.value)
    }
  }

  // ---------------------------------------------------------------------------
  // Properties of the comparator

  lemma {:induction false} LexCmpEqual(a: string, b: string)
    ensures LexCmp(a, b) == Equal <==> a == b
    decreases |a|
  {
    if a != [] && b != [] && a[0] == b[0] {
      LexCmpEqual(a[1..], b[1..]);
      assert a == [a[0]] + a[1..] && b == [b[0]] + b[1..];
    }
  }

  lemma {:induction false} LexCmpConverse(a: string, b: string)
    ensures LexCmp(b, a) == LexCmp(a, b).Reverse()
    decreases |a|
  {
    if a != [] && b != [] && a[0] == b[0] {
      LexCmpConverse(a[1..], b[1..]);
    }
  }

  /** A string is Less than every string it is a proper prefix of. */
  lemma {:induction false} LexCmpPrefix(a: string, t: string)
    requires t != []
    ensures LexCmp(a, a + t) == Less
    decreases |a|
  {
    if a != [] {
      assert (a + t)[1..] == a[1..] + t;
      LexCmpPrefix(a[1..], t);
    }
  }

  /** The one pair on which swapping the arguments does not reverse the answer:
      a number against a string that does not parse as a number. */
  predicate NumberVsUnparsable(env: Env, a: Value, b: Value) {
    a.Number? && b.String? && env.parseF64(b.s).None?
  }

  /** Against a string that is not a number, a number is Less in both argument
      orders: the comparator is not antisymmetric there. */
  lemma NumberVsUnparsableIsLessBothWays(env: Env, n: Number, s: string)
    requires env.parseF64(s).None?
    ensures PartialCmp(env, Number(n), String(s)) == Some(Less)
    ensures PartialCmp(env, String(s), Number(n)) == Some(Less)
  {
  }

  /** Against a string that parses, a number compares numerically. */
  lemma NumberVsParsable(env: Env, n: Number, s: string)
    requires env.parseF64(s).Some?
    ensures PartialCmp(env, Number(n), String(s)) == CmpF64(AsF64(n).value, env.parseF64(s).value)
    ensures PartialCmp(env, String(s), Number(n)) == CmpF64(env.parseF64(s).value, AsF64(n).value)
  {
  }

  /** Two integer numbers compare by their exact integer values, whichever
      of the i64, u64 and f64 comparisons decides. */
  lemma IntegersCompareExactly(env: Env, x: Number, y: Number)
    requires !x.Float? && !y.Float?
    ensures PartialCmp(env, Number(x), Number(y)) == Some(CmpInt(IntegerOf(x), IntegerOf(y)))
  {
  }

  /** Everywhere else, swapping the arguments reverses the answer. */
  lemma PartialCmpConverse(env: Env, a: Value, b: Value)
    requires !NumberVsUnparsable(env, a, b) && !NumberVsUnparsable(env, b, a)
    ensures PartialCmp(env, b, a) == Flip(PartialCmp(env, a, b))
  {
    if a.String? && b.String? {
      LexCmpConverse(a.s, b.s);
    }
  }

  /** The comparator as its documentation describes it: a number is below a string
      in both argument orders when the string does not parse. The repository's
      String-against-Number branch falls back to Less instead of Greater; this
      definition differs from PartialCmp in that one fallback only. */
  function PartialCmpIntended(env: Env, a: Value, b: Value): (r: Option<Ordering>)
    ensures !(a.String? && b.Number?) ==> r == PartialCmp(env, a, b)
    ensures a.String? && b.Number? ==> r == Flip(PartialCmp(env, b, a))
  {
    if a.String? && b.Number? && env.parseF64(a.s).None? then Some(Greater)
    else PartialCmp(env, a, b)
  }

  /** With the fallback corrected, swapping the arguments reverses the answer on
      every pair of values. */
  lemma PartialCmpIntendedConverse(env: Env, a: Value, b: Value)
    ensures PartialCmpIntended(env, b, a) == Flip(PartialCmpIntended(env, a, b))
  {
    if !NumberVsUnparsable(env, a, b) && !NumberVsUnparsable(env, b, a) {
      PartialCmpConverse(env, a, b);
    }
  }

  /** `"abc"` against `0`: the repository's comparator puts each below the other,
      the corrected one puts the number below the string in both orders. */
  lemma StringNumberFallbackExample(env: Env)
    requires env.parseF64("abc").None?
    ensures PartialCmp(env, Number(PosInt(0)), String("abc")) == Some(Less)
    ensures PartialCmp(env, String("abc"), Number(PosInt(0))) == Some(Less)
    ensures PartialCmpIntended(env, Number(PosInt(0)), String("abc")) == Some(Less)
    ensures PartialCmpIntended(env, String("abc"), Number(PosInt(0))) == Some(Greater)
  {
    NumberVsUnparsableIsLessBothWays(env, PosInt(0), "abc");
  }

  /** Structurally different values may still compare Equal: any two arrays do,
      since containers are ordered by header size alone. */
  lemma ContainersCompareByKind(env: Env, a: seq<Value>, b: seq<Value>, m: map<string, Value>)
    ensures PartialCmp(env, Array(a), Array(b)) == Some(Equal)
    ensures PartialCmp(env, Array(a), Object(m)) == Some(CmpInt(env.arrayHeaderSize, env.objectHeaderSize))
  {
  }

  /** The Null cases of the repository's own comparator test (src/value.rs:124-137). */
  lemma ComparatorNullExamples(env: Env)
    ensures PartialCmp(env, Null, Null) == Some(Equal)
    ensures PartialCmp(env, Number(PosInt(0)), Null) == None
    ensures PartialCmp(env, Number(PosInt(1)), Null) == None
    ensures PartialCmp(env, Number(NegInt(-1)), Null) == None
    ensures PartialCmp(env, Number(Float(12.12)), Null) == None
    ensures PartialCmp(env, Bool(true), Null) == None
    ensures PartialCmp(env, Bool(false), Null) == None
    ensures PartialCmp(env, String("test"), Null) == None
    ensures PartialCmp(env, String(""), Null) == None
    ensures PartialCmp(env, Object(map[]), Null) == None
    ensures PartialCmp(env, Object(map["a" := Number(Float(12.12))]), Null) == None
    ensures PartialCmp(env, Array([]), Null) == None
    ensures PartialCmp(env, Array([Number(PosInt(0)), Number(PosInt(1))]), Null) == None
  {
  }

  /** The Bool cases of the repository's own comparator test (src/value.rs:138-155). */
  lemma ComparatorBoolExamples(env: Env)
    ensures PartialCmp(env, Null, Bool(false)) == None
    ensures PartialCmp(env, Number(PosInt(0)), Bool(false)) == Some(Equal)
    ensures PartialCmp(env, Number(PosInt(1)), Bool(false)) == Some(Greater)
    ensures PartialCmp(env, Number(NegInt(-1)), Bool(false)) == Some(Less)
    ensures PartialCmp(env, Number(Float(12.12)), Bool(false)) == Some(Greater)
    ensures PartialCmp(env, Bool(true), Bool(false)) == Some(Greater)
    ensures PartialCmp(env, Bool(false), Bool(false)) == Some(Equal)
    ensures PartialCmp(env, String("test"), Bool(false)) == Some(Greater)
    ensures PartialCmp(env, String(""), Bool(false)) == Some(Greater)
    ensures PartialCmp(env, Object(map[]), Bool(false)) == Some(Greater)
    ensures PartialCmp(env, Object(map["a" := Number(Float(12.12))]), Bool(false)) == Some(Greater)
    ensures PartialCmp(env, Array([]), Bool(false)) == Some(Greater)
    ensures PartialCmp(env, Array([Number(PosInt(0)), Number(PosInt(1))]), Bool(false)) == Some(Greater)
  {
  }
}
