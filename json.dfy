/**
 * The JSON document model and its reader.
 *
 * A `Node` is one of the seven alternatives of the source's variant:
 * null, an array, a dictionary (a `std::map`, so one value per key and the
 * keys kept in ascending order), a bool, a 32-bit `int`, a `double` and a
 * string. A `double` is modelled as the exact `real` it stands for.
 *
 * The reader works on a character stream. Here the stream is the whole
 * input `s` together with the position `p` of the next unread character;
 * every `Load*` function takes the position it starts from and returns the
 * node together with the position after it, or a `ParsingError`.
 * `input >> c` (formatted read of one character) skips whitespace first,
 * `get` and `peek` do not; the model keeps that difference.
 * The text-to-double conversion `std::stod` is a parameter, `stod`.
 */
module Json {
  import opened Wrappers
  import opened Strings
  import opened Seqs

  /** The range of a C++ `int`. */
  newtype int32 = x: int | -0x8000_0000 <= x < 0x8000_0000

  datatype Node =
    | Null
    | Array(items: seq<Node>)
    | Dict(entries: map<string, Node>)
    | Bool(b: bool)
    | Int(i: int32)
    | Double(d: real)
    | Str(s: string)

  /** `ParsingError` is thrown by the reader, `std::logic_error` by the accessors. */
  datatype JsonError = ParsingError | LogicError

  /** `Node()`: a default-constructed node holds null. */
  function DefaultNode(): (n: Node)
    ensures IsNull(n) && !IsDouble(n) && AsBool(n).Err? && AsString(n).Err?
  {
    Null
  }

  // ---------------------------------------------------------------------
  // Type tests. `IsDouble` also holds for an int.

  predicate IsNull(n: Node) { n.Null? }
  predicate IsInt(n: Node) { n.Int? }
  predicate IsDouble(n: Node) { n.Int? || n.Double? }
  predicate IsPureDouble(n: Node) { n.Double? }
  predicate IsString(n: Node) { n.Str? }
  predicate IsBool(n: Node) { n.Bool? }
  predicate IsArray(n: Node) { n.Array? }
  predicate IsMap(n: Node) { n.Dict? }

  /** How many of the exclusive type tests a node passes. */
  function KindCount(n: Node): nat {
    (if IsNull(n) then 1 else 0) + (if IsInt(n) then 1 else 0) + (if IsPureDouble(n) then 1 else 0)
    + (if IsString(n) then 1 else 0) + (if IsBool(n) then 1 else 0) + (if IsArray(n) then 1 else 0)
    + (if IsMap(n) then 1 else 0)
  }

  /**
   * Every node passes exactly one of the exclusive tests; `IsDouble` is the
   * union of `IsInt` and `IsPureDouble`.
   */
  lemma {:induction false} ExactlyOneKind(n: Node)
    ensures KindCount(n) == 1
    ensures IsDouble(n) <==> IsInt(n) || IsPureDouble(n)
  {
  }

  // ---------------------------------------------------------------------
  // Accessors: the value when the node holds that alternative, a
  // `logic_error` otherwise.

  function AsArray(n: Node): (r: Result<seq<Node>, JsonError>)
    ensures r.Ok? <==> IsArray(n)
    ensures r.Ok? ==> n == Array(r.value)
    ensures r.Err? ==> r.error == LogicError
  {
    if n.Array? then Ok(n.items) else Err(LogicError)
  }

  function AsMap(n: Node): (r: Result<map<string, Node>, JsonError>)
    ensures r.Ok? <==> IsMap(n)
    ensures r.Ok? ==> n == Dict(r.value)
    ensures r.Err? ==> r.error == LogicError
  {
    if n.Dict? then Ok(n.entries) else Err(LogicError)
  }

  function AsBool(n: Node): (r: Result<bool, JsonError>)
    ensures r.Ok? <==> IsBool(n)
    ensures r.Ok? ==> n == Bool(r.value)
    ensures r.Err? ==> r.error == LogicError
  {
    if n.Bool? then Ok(n.b) else Err(LogicError)
  }

  function AsInt(n: Node): (r: Result<int32, JsonError>)
    ensures r.Ok? <==> IsInt(n)
    ensures r.Ok? ==> n == Int(r.value)
    ensures r.Err? ==> r.error == LogicError
  {
    if n.Int? then Ok(n.i) else Err(LogicError)
  }

  /** An int is widened; a double is returned as it is. */
  function AsDouble(n: Node): (r: Result<real, JsonError>)
    ensures r.Ok? <==> IsDouble(n)
    ensures r.Ok? ==> (n == Double(r.value) || (n.Int? && r.value == n.i as real))
    ensures r.Err? ==> r.error == LogicError
  {
    if n.Int? then Ok(n.i as real) else if n.Double? then Ok(n.d) else Err(LogicError)
  }

  function AsString(n: Node): (r: Result<string, JsonError>)
    ensures r.Ok? <==> IsString(n)
    ensures r.Ok? ==> n == Str(r.value)
    ensures r.Err? ==> r.error == LogicError
  {
    if n.Str? then Ok(n.s) else Err(LogicError)
  }

  /** Equality compares the alternative as well as the value: an int never equals a double. */
  lemma {:induction false} IntIsNotDouble(i: int32, d: real)
    ensures Int(i) != Double(d)
    ensures AsDouble(Int(i)) == Ok(i as real) && AsDouble(Double(d)) == Ok(d)
    ensures AsInt(Double(d)).Err?
  {
  }

  // ---------------------------------------------------------------------
  // Characters and the escape table of the reader.

  const Backspace: char := 8 as char
  const FormFeed: char := 12 as char

  predicate IsDigit(c: char) {
    '0' <= c <= '9'
  }

  /** `esc_symbols_load`: the character an escape letter after '\' stands for. */
  function Unescape(c: char): (r: Option<char>)
    ensures r.Some? <==> c in "\\\"nr/bft"
  {
    match c
    case '\\' => Some('\\')
    case '"' => Some('"')
    case 'n' => Some('\n')
    case 'r' => Some('\r')
    case '/' => Some('/')
    case 'b' => Some(Backspace)
    case 'f' => Some(FormFeed)
    case 't' => Some('\t')
    case _ => None
  }

  /** `input >> c`: the position of the next non-whitespace character, or `|s|` at the end. */
  function SkipWs(s: string, p: nat): (r: nat)
    requires p <= |s|
    ensures p <= r <= |s|
    ensures r < |s| ==> !IsSpace(s[r])
    decreases |s| - p
  {
    if p < |s| && IsSpace(s[p]) then SkipWs(s, p + 1) else p
  }

  /** Only whitespace is skipped. */
  lemma {:induction false} SkipWsSpec(s: string, p: nat)
    requires p <= |s|
    ensures forall i :: p <= i < SkipWs(s, p) ==> IsSpace(s[i])
    decreases |s| - p
  {
    if p < |s| && IsSpace(s[p]) {
      SkipWsSpec(s, p + 1);
    }
  }

  // ---------------------------------------------------------------------
  // Strings.

  /**
   * The loop of `LoadString`, after the opening quote: characters are
   * collected in `acc` up to the first '"' not preceded by '\'. An escape
   * letter outside the table, and the end of the input before the closing
   * quote, are parsing errors. A raw line break is collected like any
   * other character.
   */
  function StringBody(s: string, p: nat, acc: string): (r: Result<(string, nat), JsonError>)
    requires p <= |s|
    ensures r.Ok? ==> p < r.value.1 <= |s| && s[r.value.1 - 1] == '"'
    ensures r.Err? ==> r.error == ParsingError
    decreases |s| - p
  {
    if p == |s| then Err(ParsingError)
    else if s[p] == '\\' then
      if p + 1 < |s| then
        match Unescape(s[p + 1])
        case None => Err(ParsingError)
        case Some(c) => StringBody(s, p + 2, acc + [c])
      else
        // the backslash is kept, then the input ends before a closing quote
        Err(ParsingError)
    else if s[p] == '"' then Ok((acc, p + 1))
    else StringBody(s, p + 1, acc + [s[p]])
  }

  /** `LoadString`: the string after an opening quote, and the position after its closing quote. */
  function ParseString(s: string, p: nat): (r: Result<(string, nat), JsonError>)
    requires p <= |s|
    ensures r.Ok? ==> p < r.value.1 <= |s|
    ensures r.Err? ==> r.error == ParsingError
  {
    if p == |s| then Err(ParsingError) else StringBody(s, p, [])
  }

  /** `acc` is only ever extended. */
  lemma {:induction false} StringBodyExtends(s: string, p: nat, acc: string)
    requires p <= |s| && StringBody(s, p, acc).Ok?
    ensures acc <= StringBody(s, p, acc).value.0
    decreases |s| - p
  {
    if s[p] == '\\' {
      StringBodyExtends(s, p + 2, acc + [Unescape(s[p + 1]).value]);
    } else if s[p] != '"' {
      StringBodyExtends(s, p + 1, acc + [s[p]]);
    }
  }

  /**
   * Up to the first quote or backslash, characters are taken as they are;
   * in particular raw line breaks are accepted.
   */
  lemma {:induction false} StringBodyRaw(s: string, p: nat, q: nat, acc: string)
    requires p <= q < |s| && s[q] == '"'
    requires forall i :: p <= i < q ==> s[i] != '"' && s[i] != '\\'
    ensures StringBody(s, p, acc) == Ok((acc + s[p..q], q + 1))
    decreases q - p
  {
    if p == q {
      assert acc + s[p..q] == acc;
    } else {
      StringBodyRaw(s, p + 1, q, acc + [s[p]]);
      assert acc + [s[p]] + s[p + 1..q] == acc + s[p..q];
    }
  }

  /** Without a closing quote there is no string. */
  lemma {:induction false} StringBodyUnterminated(s: string, p: nat, acc: string)
    requires p <= |s|
    requires forall i :: p <= i < |s| ==> s[i] != '"'
    ensures StringBody(s, p, acc).Err?
    decreases |s| - p
  {
    if p < |s| {
      if s[p] == '\\' {
        if p + 1 < |s| && Unescape(s[p + 1]).Some? {
          StringBodyUnterminated(s, p + 2, acc + [Unescape(s[p + 1]).value]);
        }
      } else {
        StringBodyUnterminated(s, p + 1, acc + [s[p]]);
      }
    }
  }

  /** The imperative `LoadString`: a character loop filling `line`. */
  method LoadString(s: string, p: nat) returns (r: Result<(string, nat), JsonError>)
    requires p <= |s|
    ensures r == ParseString(s, p)
  {
    if p == |s| {
      return Err(ParsingError);
    }
    var line := "";
    var pos := p;
    while pos < |s|
      invariant p <= pos <= |s|
      invariant StringBody(s, pos, line) == ParseString(s, p)
      decreases |s| - pos
    {
      var c := s[pos];
      pos := pos + 1;
      if c == '\\' {
        if pos < |s| {
          var e := Unescape(s[pos]);
          pos := pos + 1;
          if e.None? {
            return Err(ParsingError);
          }
          c := e.value;
        }
      } else if c == '"' {
        return Ok((line, pos));
      }
      line := line + [c];
    }
    return Err(ParsingError);
  }

  // ---------------------------------------------------------------------
  // true, false and null.

  /**
   * `LoadBoolNull`, after the first letter: the next three characters
   * decide, whatever that letter was. "rue" is true, "ull" is null, "als"
   * followed by 'e' is false. (`get(buf, 4)` stops early at a line break;
   * such a window cannot match anyway.)
   */
  function ParseLiteral(s: string, p: nat): (r: Result<(Node, nat), JsonError>)
    requires p <= |s|
    ensures r.Ok? ==> p + 3 <= r.value.1 <= |s|
    ensures r.Ok? ==> r.value.0 == Bool(true) || r.value.0 == Bool(false) || r.value.0 == Null
    ensures r.Err? ==> r.error == ParsingError
  {
    if p + 3 > |s| then Err(ParsingError)
    else
      var w := s[p..p + 3];
      if w == "rue" then Ok((Bool(true), p + 3))
      else if w == "ull" then Ok((Null, p + 3))
      else if w == "als" && p + 3 < |s| && s[p + 3] == 'e' then Ok((Bool(false), p + 4))
      else Err(ParsingError)
  }

  // ---------------------------------------------------------------------
  // Numbers.

  /** The end of the run of digits starting at `p`. */
  function DigitsEnd(s: string, p: nat): (r: nat)
    requires p <= |s|
    ensures p <= r <= |s|
    ensures r < |s| ==> !IsDigit(s[r])
    decreases |s| - p
  {
    if p < |s| && IsDigit(s[p]) then DigitsEnd(s, p + 1) else p
  }

  lemma {:induction false} DigitsEndSpec(s: string, p: nat)
    requires p <= |s|
    ensures forall i :: p <= i < DigitsEnd(s, p) ==> IsDigit(s[i])
    decreases |s| - p
  {
    if p < |s| && IsDigit(s[p]) {
      DigitsEndSpec(s, p + 1);
    }
  }

  /** The exponent part, from `c`: `([eE][+-]?digits)?`. */
  function ExponentEnd(s: string, c: nat, isInt: bool): (r: Result<(nat, bool), JsonError>)
    requires c <= |s|
    ensures r.Ok? ==> c <= r.value.0 <= |s|
    ensures r.Ok? && r.value.1 ==> isInt && r.value.0 == c
  {
    if c < |s| && (s[c] == 'e' || s[c] == 'E') then
      var d := if c + 1 < |s| && (s[c + 1] == '+' || s[c + 1] == '-') then c + 2 else c + 1;
      if d < |s| && IsDigit(s[d]) then Ok((DigitsEnd(s, d), false)) else Err(ParsingError)
    else Ok((c, isInt))
  }

  /** The fraction part, from `b`: `(.digits)?`, then the exponent. */
  function FractionEnd(s: string, b: nat): (r: Result<(nat, bool), JsonError>)
    requires b <= |s|
    ensures r.Ok? ==> b <= r.value.0 <= |s|
  {
    if b < |s| && s[b] == '.' then
      if b + 1 < |s| && IsDigit(s[b + 1]) then ExponentEnd(s, DigitsEnd(s, b + 1), false) else Err(ParsingError)
    else ExponentEnd(s, b, true)
  }

  /**
   * The characters `LoadNumber` reads: an optional '-', then a single '0'
   * or a run of digits, then the optional fraction and exponent. The flag
   * says whether there was neither a fraction nor an exponent.
   */
  function NumberEnd(s: string, p: nat): (r: Result<(nat, bool), JsonError>)
    requires p <= |s|
    ensures r.Ok? ==> p < r.value.0 <= |s|
  {
    var a := if p < |s| && s[p] == '-' then p + 1 else p;
    if a < |s| && s[a] == '0' then FractionEnd(s, a + 1)
    else if a < |s| && IsDigit(s[a]) then FractionEnd(s, DigitsEnd(s, a))
    else Err(ParsingError)
  }

  /** The value of a run of decimal digits. */
  function DigitsValue(d: string): nat {
    if d == [] then 0 else 10 * DigitsValue(d[..|d| - 1]) + Digit(d[|d| - 1])
  }

  function Digit(c: char): nat {
    if IsDigit(c) then c as int - '0' as int else 0
  }

  /** `std::stoi` on an optional '-' and digits. */
  function DecimalValue(t: string): int {
    if t != [] && t[0] == '-' then -(DigitsValue(t[1..]) as int) else DigitsValue(t)
  }

  predicate InInt32(v: int) {
    -0x8000_0000 <= v < 0x8000_0000
  }

  /**
   * `LoadNumber`: the number at `p`. Without a fraction or an exponent it is
   * an int when `stoi` succeeds, that is when it fits in 32 bits; otherwise
   * it is the double `stod` makes of the same characters.
   */
  function ParseNumber(s: string, p: nat, stod: string -> real): (r: Result<(Node, nat), JsonError>)
    requires p <= |s|
    ensures r.Ok? ==> p < r.value.1 <= |s|
    ensures r.Ok? ==> IsDouble(r.value.0)
    ensures r.Err? <==> NumberEnd(s, p).Err?
    ensures r.Ok? ==> r.value.1 == NumberEnd(s, p).value.0
    ensures r.Ok? ==> (r.value.0.Int? <==> NumberEnd(s, p).value.1 && InInt32(DecimalValue(s[p..r.value.1])))
    ensures r.Ok? && r.value.0.Int? ==> r.value.0.i as int == DecimalValue(s[p..r.value.1])
    ensures r.Ok? && r.value.0.Double? ==> r.value.0.d == stod(s[p..r.value.1])
  {
    match NumberEnd(s, p)
    case Err(e) => Err(e)
    case Ok((e, isInt)) =>
      var text := s[p..e];
      var v := DecimalValue(text);
      if isInt && InInt32(v) then Ok((Int(v as int32), e)) else Ok((Double(stod(text)), e))
  }

  /** `read_digits`: at least one digit is required, then all the digits are taken. */
  method ReadDigits(s: string, pos: nat, text: string) returns (next: nat, text': string, ok: bool)
    requires pos <= |s|
    ensures ok <==> pos < |s| && IsDigit(s[pos])
    ensures ok ==> next == DigitsEnd(s, pos) && text' == text + s[pos..next]
  {
    if !(pos < |s| && IsDigit(s[pos])) {
      return pos, text, false;
    }
    next, text' := pos, text;
    while next < |s| && IsDigit(s[next])
      invariant pos <= next <= |s|
      invariant DigitsEnd(s, next) == DigitsEnd(s, pos)
      invariant text' == text + s[pos..next]
      decreases |s| - next
    {
      text' := text' + [s[next]];
      next := next + 1;
    }
    ok := true;
  }

  /** The exponent part of `LoadNumber`: what it reads and whether the number stays an int candidate. */
  method ReadExponent(s: string, c: nat, isInt: bool, text: string) returns (r: Result<(nat, bool), JsonError>, text': string)
    requires c <= |s|
    ensures r == ExponentEnd(s, c, isInt)
    ensures r.Ok? ==> text' == text + s[c..r.value.0]
  {
    if !(c < |s| && (s[c] == 'e' || s[c] == 'E')) {
      assert s[c..c] == [];
      return Ok((c, isInt)), text;
    }
    var d := c + 1;
    if d < |s| && (s[d] == '+' || s[d] == '-') {
      d := d + 1;
    }
    var next, ok;
    next, text', ok := ReadDigits(s, d, text + s[c..d]);
    if !ok {
      return Err(ParsingError), text';
    }
    SliceConcat(s, c, d, next);
    AppendAssoc(text, s[c..d], s[d..next]);
    return Ok((next, false)), text';
  }

  /** The fraction part of `LoadNumber`, followed by the exponent part. */
  method ReadFraction(s: string, b: nat, text: string) returns (r: Result<(nat, bool), JsonError>, text': string)
    requires b <= |s|
    ensures r == FractionEnd(s, b)
    ensures r.Ok? ==> text' == text + s[b..r.value.0]
  {
    if !(b < |s| && s[b] == '.') {
      r, text' := ReadExponent(s, b, true, text);
      return;
    }
    var c, ok;
    c, text', ok := ReadDigits(s, b + 1, text + [s[b]]);
    if !ok {
      return Err(ParsingError), text';
    }
    assert [s[b]] + s[b + 1..c] == s[b..c];
    AppendAssoc(text, [s[b]], s[b + 1..c]);
    var text2 := text';
    r, text' := ReadExponent(s, c, false, text2);
    if r.Ok? {
      SliceConcat(s, b, c, r.value.0);
      AppendAssoc(text, s[b..c], s[c..r.value.0]);
    }
  }

  /**
   * The imperative `LoadNumber`: `read_char` appends the next character to
   * `parsed`, `read_digits` a run of digits; then `stoi` is tried when the
   * number has neither a fraction nor an exponent, `stod` otherwise.
   */
  method LoadNumber(s: string, p: nat, stod: string -> real) returns (r: Result<(Node, nat), JsonError>)
    requires p <= |s|
    ensures r == ParseNumber(s, p, stod)
  {
    var a := if p < |s| && s[p] == '-' then p + 1 else p;
    var parsed := s[p..a];
    var b, ok;
    if a < |s| && s[a] == '0' {
      b := a + 1;
      parsed := parsed + [s[a]];
      assert s[a..b] == [s[a]];
    } else {
      b, parsed, ok := ReadDigits(s, a, parsed);
      if !ok {
        return Err(ParsingError);
      }
    }
    SliceConcat(s, p, a, b);
    var f;
    f, parsed := ReadFraction(s, b, parsed);
    if f.Err? {
      return Err(ParsingError);
    }
    var (e, isInt) := f.value;
    SliceConcat(s, p, b, e);
    assert parsed == s[p..e];
    var v := DecimalValue(parsed);
    if isInt && InInt32(v) {
      return Ok((Int(v as int32), e));
    }
    return Ok((Double(stod(parsed)), e));
  }

  // ---------------------------------------------------------------------
  // The number grammar of section 6 of RFC 8259, stated on its own.

  predicate AllDigits(t: string) {
    forall i :: 0 <= i < |t| ==> IsDigit(t[i])
  }

  /** `0`, or a non-zero digit followed by digits. */
  predicate IntegerPart(t: string) {
    t == "0" || (|t| >= 1 && '1' <= t[0] <= '9' && AllDigits(t[1..]))
  }

  /** Empty, or '.' and at least one digit. */
  predicate FractionPart(t: string) {
    t == [] || (|t| >= 2 && t[0] == '.' && AllDigits(t[1..]))
  }

  /** Empty, or 'e'/'E', an optional sign and at least one digit. */
  predicate ExponentPart(t: string) {
    t == [] ||
    (|t| >= 2 && (t[0] == 'e' || t[0] == 'E') &&
     ((AllDigits(t[1..])) || (|t| >= 3 && (t[1] == '+' || t[1] == '-') && AllDigits(t[2..]))))
  }

  /** `t` is a JSON number, split at `a` (sign), `b` (integer part) and `c` (fraction). */
  predicate NumberSplit(t: string, a: nat, b: nat, c: nat) {
    && a <= b <= c <= |t|
    && (t[..a] == [] || t[..a] == "-")
    && IntegerPart(t[a..b]) && FractionPart(t[b..c]) && ExponentPart(t[c..])
  }

  ghost predicate IsJsonNumber(t: string) {
    exists a: nat, b: nat, c: nat :: NumberSplit(t, a, b, c)
  }

  lemma {:induction false} AllDigitsRun(s: string, p: nat)
    requires p <= |s|
    ensures AllDigits(s[p..DigitsEnd(s, p)])
  {
    DigitsEndSpec(s, p);
  }

  /** The integer part `LoadNumber` reads, from `a`. */
  lemma {:induction false} IntegerPartSound(s: string, a: nat)
    requires a < |s| && IsDigit(s[a])
    ensures var b := if s[a] == '0' then a + 1 else DigitsEnd(s, a);
            IntegerPart(s[a..b])
  {
    if s[a] != '0' {
      AllDigitsRun(s, a + 1);
      assert DigitsEnd(s, a) == DigitsEnd(s, a + 1);
      assert s[a..DigitsEnd(s, a)][1..] == s[a + 1..DigitsEnd(s, a + 1)];
    }
  }

  /** The fraction part `LoadNumber` reads, from `b`. */
  lemma {:induction false} FractionPartSound(s: string, b: nat)
    requires b <= |s| && FractionEnd(s, b).Ok?
    ensures var c := if b < |s| && s[b] == '.' then DigitsEnd(s, b + 1) else b;
            c <= |s| && FractionPart(s[b..c]) && ExponentEnd(s, c, !(b < |s| && s[b] == '.')) == FractionEnd(s, b)
  {
    if b < |s| && s[b] == '.' {
      AllDigitsRun(s, b + 1);
      assert s[b..DigitsEnd(s, b + 1)][1..] == s[b + 1..DigitsEnd(s, b + 1)];
    } else {
      assert s[b..b] == [];
    }
  }

  /** The exponent part `LoadNumber` reads, from `c`. */
  lemma {:induction false} ExponentPartSound(s: string, c: nat, isInt: bool)
    requires c <= |s| && ExponentEnd(s, c, isInt).Ok?
    ensures ExponentPart(s[c..ExponentEnd(s, c, isInt).value.0])
  {
    if c < |s| && (s[c] == 'e' || s[c] == 'E') {
      var d := if c + 1 < |s| && (s[c + 1] == '+' || s[c + 1] == '-') then c + 2 else c + 1;
      AllDigitsRun(s, d);
      assert s[c..DigitsEnd(s, d)][d - c..] == s[d..DigitsEnd(s, d)];
    } else {
      assert s[c..c] == [];
    }
  }

  /** What `LoadNumber` accepts is a JSON number. */
  lemma {:induction false} NumberEndSound(s: string, p: nat)
    requires p <= |s| && NumberEnd(s, p).Ok?
    ensures IsJsonNumber(s[p..NumberEnd(s, p).value.0])
  {
    var e := NumberEnd(s, p).value.0;
    var a := if p < |s| && s[p] == '-' then p + 1 else p;
    var b := if s[a] == '0' then a + 1 else DigitsEnd(s, a);
    IntegerPartSound(s, a);
    FractionPartSound(s, b);
    var c := if b < |s| && s[b] == '.' then DigitsEnd(s, b + 1) else b;
    ExponentPartSound(s, c, !(b < |s| && s[b] == '.'));
    var t := s[p..e];
    SliceOfSlice(s, p, e, p, a);
    SliceOfSlice(s, p, e, a, b);
    SliceOfSlice(s, p, e, b, c);
    SliceOfSlice(s, p, e, c, e);
    assert t[..a - p] == t[0..a - p] && t[c - p..] == t[c - p..e - p];
    assert NumberSplit(t, a - p, b - p, c - p);
  }

  /** The number is read as an int candidate exactly when it has neither a fraction nor an exponent. */
  lemma {:induction false} NumberEndIntFlag(s: string, p: nat)
    requires p <= |s| && NumberEnd(s, p).Ok?
    ensures NumberEnd(s, p).value.1 <==> forall i :: p <= i < NumberEnd(s, p).value.0 ==> s[i] != '.' && s[i] != 'e' && s[i] != 'E'
  {
    var e := NumberEnd(s, p).value.0;
    var a := if p < |s| && s[p] == '-' then p + 1 else p;
    var b := if s[a] == '0' then a + 1 else DigitsEnd(s, a);
    DigitsEndSpec(s, a);
    if b < |s| && s[b] == '.' {
      assert p <= b < e;
    } else if b < |s| && (s[b] == 'e' || s[b] == 'E') {
      assert p <= b < e;
    } else {
      assert e == b;
      forall i | p <= i < e
        ensures s[i] != '.' && s[i] != 'e' && s[i] != 'E'
      {
        if i >= a + 1 { assert IsDigit(s[i]); }
      }
    }
  }

  /** `-` not followed by a digit, and a '.' or an exponent without digits, are parsing errors. */
  lemma {:induction false} MissingDigitFails(s: string, p: nat)
    requires p < |s|
    requires (s[p] == '-' && (p + 1 == |s| || !IsDigit(s[p + 1])))
          || (!IsDigit(s[p]) && s[p] != '-')
    ensures NumberEnd(s, p).Err?
  {
  }

  lemma {:induction false} FractionNeedsDigit(s: string, p: nat)
    requires p + 2 <= |s| && IsDigit(s[p]) && s[p + 1] == '.' && (p + 2 == |s| || !IsDigit(s[p + 2]))
    requires s[p] != '0' ==> DigitsEnd(s, p) == p + 1
    ensures NumberEnd(s, p).Err?
  {
  }

  // ---------------------------------------------------------------------
  // Arrays, dictionaries and the dispatch on the first character.

  /**
   * `LoadNode`: the first non-whitespace character chooses the kind:
   * '[' an array, '{' a dictionary, '"' a string, 't', 'f' or 'n' a
   * literal, anything else a number. The end of the input is an error.
   */
  function ParseNode(s: string, p: nat, stod: string -> real): (r: Result<(Node, nat), JsonError>)
    requires p <= |s|
    ensures r.Ok? ==> p < r.value.1 <= |s|
    decreases |s| - p, 0
  {
    var q := SkipWs(s, p);
    if q == |s| then Err(ParsingError)
    else if s[q] == '[' then LoadArray(s, q + 1, stod)
    else if s[q] == '{' then LoadDict(s, q + 1, stod)
    else if s[q] == '"' then StringNode(s, q + 1)
    else if s[q] == 't' || s[q] == 'f' || s[q] == 'n' then ParseLiteral(s, q + 1)
    else ParseNumber(s, q, stod)
  }

  /** A string node, after the opening quote. */
  function StringNode(s: string, p: nat): (r: Result<(Node, nat), JsonError>)
    requires p <= |s|
    ensures r.Ok? ==> p < r.value.1 <= |s| && r.value.0.Str?
  {
    match ParseString(s, p)
    case Err(e) => Err(e)
    case Ok((t, e)) => Ok((Str(t), e))
  }

  /** `LoadArray`, after '[': the end of the input or a ',' right after the bracket is an error. */
  function LoadArray(s: string, p: nat, stod: string -> real): (r: Result<(Node, nat), JsonError>)
    requires p <= |s|
    ensures r.Ok? ==> p < r.value.1 <= |s|
    ensures r.Ok? ==> r.value.0.Array?
    decreases |s| - p, 2
  {
    if p == |s| || s[p] == ',' then Err(ParsingError) else ArrayItems(s, p, [], stod)
  }

  /**
   * The loop of `LoadArray`: read a character (skipping whitespace); stop
   * at ']' or at the end of the input; a ',' is dropped, any other
   * character is put back and a node is read from it.
   */
  function ArrayItems(s: string, p: nat, acc: seq<Node>, stod: string -> real): (r: Result<(Node, nat), JsonError>)
    requires p <= |s|
    ensures r.Ok? ==> p <= r.value.1 <= |s| && (p < |s| ==> p < r.value.1)
    ensures r.Ok? ==> r.value.0.Array? && acc <= r.value.0.items
    decreases |s| - p, 1
  {
    var q := SkipWs(s, p);
    if q == |s| then Ok((Array(acc), q))
    else if s[q] == ']' then Ok((Array(acc), q + 1))
    else
      var start := if s[q] == ',' then q + 1 else q;
      match ParseNode(s, start, stod)
      case Err(e) => Err(e)
      case Ok((n, next)) => ArrayItems(s, next, acc + [n], stod)
  }

  /** The position after the character `input >> c` reads from `p`; `|s|` when there is none. */
  function AfterChar(s: string, p: nat): (r: nat)
    requires p <= |s|
    ensures p <= r <= |s| && (p < |s| ==> p < r)
  {
    var q := SkipWs(s, p);
    if q == |s| then |s| else q + 1
  }

  /** `LoadDict`, after '{': the end of the input or a ',' right after the brace is an error. */
  function LoadDict(s: string, p: nat, stod: string -> real): (r: Result<(Node, nat), JsonError>)
    requires p <= |s|
    ensures r.Ok? ==> p < r.value.1 <= |s|
    ensures r.Ok? ==> r.value.0.Dict?
    decreases |s| - p, 2
  {
    if p == |s| || s[p] == ',' then Err(ParsingError) else DictItems(s, p, map[], stod)
  }

  /** `Dict::emplace`: a key already present keeps its value. */
  function Emplace(acc: map<string, Node>, key: string, v: Node): map<string, Node> {
    if key in acc then acc else acc[key := v]
  }

  /**
   * The loop of `LoadDict`: read a character; stop at '}' or at the end of
   * the input. After a ',' one more character is read. The character read
   * last stands for the key's opening quote and is not checked; the key is
   * read as a string, one more character (the ':') is read and dropped, and
   * the value is read. `insert` keeps the first value of a repeated key.
   */
  function DictItems(s: string, p: nat, acc: map<string, Node>, stod: string -> real): (r: Result<(Node, nat), JsonError>)
    requires p <= |s|
    ensures r.Ok? ==> p <= r.value.1 <= |s| && (p < |s| ==> p < r.value.1)
    ensures r.Ok? ==> r.value.0.Dict?
    decreases |s| - p, 1
  {
    var q := SkipWs(s, p);
    if q == |s| then Ok((Dict(acc), q))
    else if s[q] == '}' then Ok((Dict(acc), q + 1))
    else
      var keyStart := if s[q] == ',' then AfterChar(s, q + 1) else q + 1;
      match DictEntry(s, keyStart, stod)
      case Err(e) => Err(e)
      case Ok((key, v, next)) => DictItems(s, next, Emplace(acc, key, v), stod)
  }

  /** One entry of the loop of `LoadDict`, from the key's first character: the key, the ':' and the value. */
  function DictEntry(s: string, keyStart: nat, stod: string -> real): (r: Result<(string, Node, nat), JsonError>)
    requires keyStart <= |s|
    ensures r.Ok? ==> keyStart < r.value.2 <= |s|
    decreases |s| - keyStart, 3
  {
    match ParseString(s, keyStart)
    case Err(e) => Err(e)
    case Ok((key, afterKey)) =>
      match ParseNode(s, AfterChar(s, afterKey), stod)
      case Err(e) => Err(e)
      case Ok((v, next)) => Ok((key, v, next))
  }

  /** `json::Load`: the document is the node at the start of the input; what follows it is not read. */
  function Load(s: string, stod: string -> real): (r: Result<Node, JsonError>)
  {
    match ParseNode(s, 0, stod)
    case Err(e) => Err(e)
    case Ok((n, _)) => Ok(n)
  }

  /** The first non-whitespace character decides the kind of the node read. */
  lemma {:induction false} ParseNodeKind(s: string, p: nat, stod: string -> real)
    requires p <= |s| && ParseNode(s, p, stod).Ok?
    ensures var q, n := SkipWs(s, p), ParseNode(s, p, stod).value.0;
            && q < |s|
            && (n.Array? <==> s[q] == '[')
            && (n.Dict? <==> s[q] == '{')
            && (n.Str? <==> s[q] == '"')
            && (n.Bool? || n.Null? <==> s[q] == 't' || s[q] == 'f' || s[q] == 'n')
            && (IsDouble(n) <==> !(s[q] in "[{\"tfn"))
  {
  }

  /** Input holding only whitespace holds no node. */
  lemma {:induction false} BlankFails(s: string, p: nat, stod: string -> real)
    requires p <= |s|
    requires forall i :: p <= i < |s| ==> IsSpace(s[i])
    ensures ParseNode(s, p, stod).Err?
  {
    BlankSkipped(s, p);
  }

  lemma {:induction false} BlankSkipped(s: string, p: nat)
    requires p <= |s|
    requires forall i :: p <= i < |s| ==> IsSpace(s[i])
    ensures SkipWs(s, p) == |s|
    decreases |s| - p
  {
    if p < |s| {
      BlankSkipped(s, p + 1);
    }
  }

  /** A repeated key does not replace the value read first. */
  lemma {:induction false} DictItemsKeepsFirst(s: string, p: nat, acc: map<string, Node>, stod: string -> real)
    requires p <= |s| && DictItems(s, p, acc, stod).Ok?
    ensures var m := DictItems(s, p, acc, stod).value.0.entries;
            forall k :: k in acc ==> k in m && m[k] == acc[k]
    decreases |s| - p
  {
    var q := SkipWs(s, p);
    if q < |s| && s[q] != '}' {
      var keyStart := if s[q] == ',' then AfterChar(s, q + 1) else q + 1;
      var (key, v, next) := DictEntry(s, keyStart, stod).value;
      var acc' := Emplace(acc, key, v);
      DictItemsEntry(s, p, acc, stod, keyStart, key, v, next);
      DictItemsKeepsFirst(s, next, acc', stod);
    }
  }

  /** The first letter of a literal is not checked: "nrue" reads as true. */
  lemma {:induction false} LiteralFirstLetterUnchecked(stod: string -> real)
    ensures Load("nrue", stod) == Ok(Bool(true))
  {
    var s := "nrue";
    SkipWsAt(s, 0);
    assert s[1..4] == "rue";
    assert ParseLiteral(s, 1) == Ok((Bool(true), 4));
  }

  /** Likewise "tull" reads as null. */
  lemma {:induction false} NullFirstLetterUnchecked(stod: string -> real)
    ensures Load("tull", stod) == Ok(Null)
  {
    var s := "tull";
    SkipWsAt(s, 0);
    assert s[1..4] == "ull";
    assert ParseLiteral(s, 1) == Ok((Null, 4));
  }

  /** A ',' right after the opening bracket or brace, or nothing after it, is an error. */
  lemma {:induction false} LeadingCommaFails(stod: string -> real)
    ensures Load("[,1]", stod).Err? && Load("{,", stod).Err?
    ensures Load("[", stod).Err? && Load("{", stod).Err?
  {
  }

  /** The keys and values of the text with a repeated key, read one by one. */
  lemma {:induction false} RepeatedKeyTokens(s: string, stod: string -> real)
    requires s == "{\"a\":1,\"a\":2}"
    ensures ParseString(s, 2) == Ok(("a", 4)) && ParseString(s, 8) == Ok(("a", 10))
    ensures ParseNode(s, AfterChar(s, 4), stod) == Ok((Int(1), 6))
    ensures ParseNode(s, AfterChar(s, 10), stod) == Ok((Int(2), 12))
  {
    assert ParseString(s, 2) == Ok(("a", 4)) && ParseString(s, 8) == Ok(("a", 10)) by {
      assert StringBody(s, 3, "a") == Ok(("a", 4));
      assert StringBody(s, 9, "a") == Ok(("a", 10));
      assert "" + ['a'] == "a";
    }
    assert ParseNumber(s, 5, stod) == Ok((Int(1), 6)) by {
      assert DigitsEnd(s, 5) == 6 && NumberEnd(s, 5) == Ok((6, true));
      assert s[5..6] == "1" && DigitsValue("1") == 1;
    }
    assert ParseNumber(s, 11, stod) == Ok((Int(2), 12)) by {
      assert DigitsEnd(s, 11) == 12 && NumberEnd(s, 11) == Ok((12, true));
      assert s[11..12] == "2" && DigitsValue("2") == 2;
    }
    SkipWsAt(s, 4);
    SkipWsAt(s, 5);
    SkipWsAt(s, 10);
    SkipWsAt(s, 11);
    ParseNodeNumber(s, 5, stod);
    ParseNodeNumber(s, 11, stod);
  }

  /** The first of two values under one key is kept. */
  lemma {:induction false} RepeatedKeyKeepsFirst(stod: string -> real)
    ensures Load("{\"a\":1,\"a\":2}", stod) == Ok(Dict(map["a" := Int(1)]))
  {
    var s := "{\"a\":1,\"a\":2}";
    var m1 := map["a" := Int(1)];
    RepeatedKeyTokens(s, stod);
    SkipWsAt(s, 1);
    SkipWsAt(s, 6);
    SkipWsAt(s, 7);
    SkipWsAt(s, 12);
    DictItemsNext(s, 1, map[], stod, 2, "a", 4, Int(1), 6);
    assert map[]["a" := Int(1)] == m1;
    DictItemsNext(s, 6, m1, stod, 8, "a", 10, Int(2), 12);
    DictItemsClose(s, 12, m1, stod);
    ParseNodeDict(s, 0, stod);
  }

  /** An array the input ends inside is returned with the elements read so far. */
  lemma {:induction false} UnclosedArrayAccepted(stod: string -> real)
    ensures Load("[1", stod) == Ok(Array([Int(1)]))
  {
    var s := "[1";
    assert SkipWs(s, 0) == 0 && SkipWs(s, 1) == 1 && SkipWs(s, 2) == 2;
    assert DigitsEnd(s, 1) == 2;
    assert NumberEnd(s, 1) == Ok((2, true));
    assert ParseNumber(s, 1, stod) == Ok((Int(1), 2)) by {
      assert s[1..2] == "1";
      assert DigitsValue("1") == 1;
    }
    assert ParseNode(s, 1, stod) == Ok((Int(1), 2));
    assert ArrayItems(s, 2, [Int(1)], stod) == Ok((Array([Int(1)]), 2));
    assert [] + [Int(1)] == [Int(1)];
    assert ArrayItems(s, 1, [], stod) == Ok((Array([Int(1)]), 2));
  }

  // ---------------------------------------------------------------------
  // Single steps of the reader, for proofs that follow it through a text.

  /** At a non-space character, `>>` reads that character. */
  lemma {:induction false} SkipWsAt(s: string, p: nat)
    requires p < |s| && !IsSpace(s[p])
    ensures SkipWs(s, p) == p
  {
  }

  /** A space is skipped. */
  lemma {:induction false} SkipWsSpace(s: string, p: nat)
    requires p < |s| && IsSpace(s[p])
    ensures SkipWs(s, p) == SkipWs(s, p + 1)
  {
  }

  lemma {:induction false} ParseNodeArray(s: string, p: nat, stod: string -> real)
    requires p < |s| && s[p] == '['
    ensures ParseNode(s, p, stod) == LoadArray(s, p + 1, stod)
  {
    SkipWsAt(s, p);
  }

  lemma {:induction false} ParseNodeDict(s: string, p: nat, stod: string -> real)
    requires p < |s| && s[p] == '{'
    ensures ParseNode(s, p, stod) == LoadDict(s, p + 1, stod)
  {
    SkipWsAt(s, p);
  }

  lemma {:induction false} ParseNodeString(s: string, p: nat, stod: string -> real)
    requires p < |s| && s[p] == '"'
    ensures ParseNode(s, p, stod) == StringNode(s, p + 1)
  {
    SkipWsAt(s, p);
  }

  lemma {:induction false} ParseNodeLiteral(s: string, p: nat, stod: string -> real)
    requires p < |s| && (s[p] == 't' || s[p] == 'f' || s[p] == 'n')
    ensures ParseNode(s, p, stod) == ParseLiteral(s, p + 1)
  {
    SkipWsAt(s, p);
  }

  lemma {:induction false} ParseNodeNumber(s: string, p: nat, stod: string -> real)
    requires p < |s| && (s[p] == '-' || IsDigit(s[p]))
    ensures ParseNode(s, p, stod) == ParseNumber(s, p, stod)
  {
    SkipWsAt(s, p);
  }

  lemma {:induction false} ParseNodeSpace(s: string, p: nat, stod: string -> real)
    requires p < |s| && IsSpace(s[p])
    ensures ParseNode(s, p, stod) == ParseNode(s, p + 1, stod)
  {
    SkipWsSpace(s, p);
  }

  /** The loop of `LoadArray` at a ']'. */
  lemma {:induction false} ArrayItemsClose(s: string, p: nat, acc: seq<Node>, stod: string -> real)
    requires p <= |s| && SkipWs(s, p) < |s| && s[SkipWs(s, p)] == ']'
    ensures ArrayItems(s, p, acc, stod) == Ok((Array(acc), SkipWs(s, p) + 1))
  {
  }

  /** The loop of `LoadArray` reading one more element. */
  lemma {:induction false} ArrayItemsNext(s: string, p: nat, acc: seq<Node>, stod: string -> real, start: nat, n: Node, next: nat)
    requires p <= |s| && SkipWs(s, p) < |s| && s[SkipWs(s, p)] != ']'
    requires start == if s[SkipWs(s, p)] == ',' then SkipWs(s, p) + 1 else SkipWs(s, p)
    requires ParseNode(s, start, stod) == Ok((n, next))
    ensures ArrayItems(s, p, acc, stod) == ArrayItems(s, next, acc + [n], stod)
  {
  }

  /** The loop of `LoadDict` at a '}'. */
  lemma {:induction false} DictItemsClose(s: string, p: nat, acc: map<string, Node>, stod: string -> real)
    requires p <= |s| && SkipWs(s, p) < |s| && s[SkipWs(s, p)] == '}'
    ensures DictItems(s, p, acc, stod) == Ok((Dict(acc), SkipWs(s, p) + 1))
  {
  }

  /** The loop of `LoadDict` reading one more entry. */
  lemma {:induction false} DictItemsNext(s: string, p: nat, acc: map<string, Node>, stod: string -> real,
                      keyStart: nat, key: string, afterKey: nat, v: Node, next: nat)
    requires p <= |s| && SkipWs(s, p) < |s| && s[SkipWs(s, p)] != '}'
    requires keyStart == if s[SkipWs(s, p)] == ',' then AfterChar(s, SkipWs(s, p) + 1) else SkipWs(s, p) + 1
    requires ParseString(s, keyStart) == Ok((key, afterKey))
    requires ParseNode(s, AfterChar(s, afterKey), stod) == Ok((v, next))
    ensures DictItems(s, p, acc, stod) == DictItems(s, next, Emplace(acc, key, v), stod)
  {
    DictEntryOk(s, keyStart, key, afterKey, v, next, stod);
    DictItemsEntry(s, p, acc, stod, keyStart, key, v, next);
  }

  lemma {:induction false} DictEntryOk(s: string, keyStart: nat, key: string, afterKey: nat, v: Node, next: nat, stod: string -> real)
    requires keyStart <= |s|
    requires ParseString(s, keyStart) == Ok((key, afterKey))
    requires ParseNode(s, AfterChar(s, afterKey), stod) == Ok((v, next))
    ensures DictEntry(s, keyStart, stod) == Ok((key, v, next))
  {
  }

  lemma {:induction false} DictItemsEntry(s: string, p: nat, acc: map<string, Node>, stod: string -> real,
                      keyStart: nat, key: string, v: Node, next: nat)
    requires p <= |s| && SkipWs(s, p) < |s| && s[SkipWs(s, p)] != '}'
    requires keyStart == if s[SkipWs(s, p)] == ',' then AfterChar(s, SkipWs(s, p) + 1) else SkipWs(s, p) + 1
    requires DictEntry(s, keyStart, stod) == Ok((key, v, next))
    ensures DictItems(s, p, acc, stod) == DictItems(s, next, Emplace(acc, key, v), stod)
  {
  }
}
