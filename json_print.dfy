/**
 * The JSON printer (`OstreamSolutionPrinter`) and what reading the
 * printed text back gives.
 *
 * The printed text is a `string`; `std::endl` is a line break. A
 * dictionary is a `std::map`, which the printer walks in ascending key
 * order; the keys of a `map` here are a set, so `SortedKeys` lists them
 * in that order. A `double` is written with the stream's default
 * formatting, which is a parameter here, `showDouble`.
 */
module JsonPrint {
  import opened Wrappers
  import opened Strings
  import opened Seqs
  import opened Json

  // ---------------------------------------------------------------------
  // Strings.

  /**
   * `esc_symbols_save`: backslash, quote, line feed, carriage return,
   * backspace and form feed are written as an escape; every other
   * character, the tab and '/' included, is written as it is.
   */
  function EscapeChar(c: char): string {
    if c == '\\' then "\\\\"
    else if c == '"' then "\\\""
    else if c == '\n' then "\\n"
    else if c == '\r' then "\\r"
    else if c == Backspace then "\\b"
    else if c == FormFeed then "\\f"
    else [c]
  }

  /** Each character of the string, through the escape table. */
  function Escape(t: string): string {
    if t == [] then [] else EscapeChar(t[0]) + Escape(t[1..])
  }

  /** The string printer: the escaped characters between quotes. */
  function Quote(t: string): string {
    "\"" + Escape(t) + "\""
  }

  /**
   * The two escape tables agree: a character is written either as itself,
   * when it is neither a quote nor a backslash, or as a backslash and a
   * letter that the reader's table turns back into it.
   */
  lemma {:induction false} EscapeCharDecodes(c: char)
    ensures || (EscapeChar(c) == [c] && c != '"' && c != '\\')
            || (|EscapeChar(c)| == 2 && EscapeChar(c)[0] == '\\' && Unescape(EscapeChar(c)[1]) == Some(c))
  {
  }

  /** Tab and '/' are read as escapes but written raw. */
  lemma {:induction false} TabAndSlashWrittenRaw()
    ensures EscapeChar('\t') == "\t" && EscapeChar('/') == "/"
    ensures Unescape('t') == Some('\t') && Unescape('/') == Some('/')
  {
  }

  /** The reader takes one written character, escaped or not, back to the character. */
  lemma {:induction false} EscapeCharStep(s: string, q: nat, c: char, acc: string, next: nat)
    requires At(s, q, EscapeChar(c)) && next == q + |EscapeChar(c)|
    ensures StringBody(s, q, acc) == StringBody(s, next, acc + [c])
  {
    var e := EscapeChar(c);
    EscapeCharDecodes(c);
    AtIndex(s, q, e, 0);
    if e != [c] {
      AtIndex(s, q, e, 1);
    }
  }

  /** Reading an escaped string up to its closing quote gives the string back, after the quote at `end`. */
  lemma {:induction false} EscapeRoundTrip(s: string, q: nat, t: string, acc: string, end: nat)
    requires At(s, q, Escape(t) + "\"") && end == q + |Escape(t)| + 1
    ensures StringBody(s, q, acc) == Ok((acc + t, end))
    decreases |t|
  {
    if t == [] {
      AtIndex(s, q, Escape(t) + "\"", 0);
      AppendEmpty(acc);
    } else {
      var c, e, rest := t[0], EscapeChar(t[0]), t[1..];
      assert Escape(t) == e + Escape(rest);
      AppendAssoc(e, Escape(rest), "\"");
      AtAppend(s, q, e, Escape(rest) + "\"");
      var next := q + |e|;
      EscapeCharStep(s, q, c, acc, next);
      EscapeRoundTrip(s, next, rest, acc + [c], end);
      AppendAssoc(acc, [c], rest);
      assert [c] + rest == t;
    }
  }

  /** The printed string reads back as the same string. */
  lemma {:induction false} QuoteRoundTrip(t: string)
    ensures ParseString(Quote(t), 1) == Ok((t, |Quote(t)|))
  {
    var s := Quote(t);
    AppendAssoc("\"", Escape(t), "\"");
    AtAppend(s, 0, "\"", Escape(t) + "\"");
    AtWhole(s);
    EscapeRoundTrip(s, 1, t, [], |s|);
    AppendEmpty(t);
  }

  // ---------------------------------------------------------------------
  // Numbers.

  function DigitChar(d: nat): (c: char)
    requires d < 10
    ensures IsDigit(c) && Digit(c) == d
  {
    ('0' as int + d) as char
  }

  /** `out << num` for a non-negative int: decimal digits, no leading zero. */
  function NatToString(n: nat): (r: string)
    ensures r != []
  {
    if n < 10 then [DigitChar(n)] else NatToString(n / 10) + [DigitChar(n % 10)]
  }

  /** `out << num` for an int. */
  function IntToString(i: int32): (r: string)
    ensures r != []
  {
    if i < 0 then "-" + NatToString(-(i as int)) else NatToString(i as int)
  }

  /** The digits are digits, and the first is '0' only for zero, which is a single digit. */
  lemma {:induction false} NatToStringDigits(n: nat)
    ensures AllDigits(NatToString(n))
    ensures NatToString(n)[0] == '0' <==> n == 0
    ensures n == 0 ==> NatToString(n) == "0"
  {
    if n >= 10 {
      NatToStringDigits(n / 10);
    }
  }

  /** The printed digits read back as the number. */
  lemma {:induction false} NatToStringValue(n: nat)
    ensures DigitsValue(NatToString(n)) == n
  {
    if n >= 10 {
      var d := NatToString(n);
      assert d[..|d| - 1] == NatToString(n / 10);
      NatToStringValue(n / 10);
    }
  }

  /** The printed int reads back as the same int. */
  lemma {:induction false} IntToStringValue(i: int32)
    ensures DecimalValue(IntToString(i)) == i as int
  {
    var d := NatToString(if i < 0 then -(i as int) else i as int);
    NatToStringValue(if i < 0 then -(i as int) else i as int);
    NatToStringDigits(if i < 0 then -(i as int) else i as int);
    if i < 0 {
      assert IntToString(i)[1..] == d;
    } else {
      assert IsDigit(d[0]);
    }
  }

  /** A run of digits followed by a non-digit ends where the run does. */
  lemma {:induction false} DigitsEndAt(s: string, a: nat, d: string)
    requires At(s, a, d) && AllDigits(d)
    requires a + |d| == |s| || !IsDigit(s[a + |d|])
    ensures DigitsEnd(s, a) == a + |d|
    decreases |d|
  {
    if d != [] {
      AtIndex(s, a, d, 0);
      AtAppend(s, a, [d[0]], d[1..]);
      assert [d[0]] + d[1..] == d;
      DigitsEndAt(s, a + 1, d[1..]);
    }
  }

  // ---------------------------------------------------------------------
  // Dictionary keys in ascending order.

  ghost predicate IsLeast(k: string, keys: set<string>) {
    k in keys && forall j :: j in keys ==> !Less(j, k)
  }

  lemma {:induction false} LeastExists(keys: set<string>)
    requires keys != {}
    ensures exists k :: IsLeast(k, keys)
    decreases |keys|
  {
    var x :| x in keys;
    var rest := keys - {x};
    LessIrreflexive(x);
    if rest == {} {
      assert keys == {x};
      assert IsLeast(x, keys);
    } else {
      LeastExists(rest);
      var m :| IsLeast(m, rest);
      if Less(x, m) {
        forall j | j in keys
          ensures !Less(j, x)
        {
          if j != x && Less(j, x) {
            LessTransitive(j, x, m);
          }
        }
        assert IsLeast(x, keys);
      } else {
        assert IsLeast(m, keys);
      }
    }
  }

  /** The keys of a `std::map` in the order the map is walked. */
  ghost function SortedKeys(keys: set<string>): (r: seq<string>)
    ensures forall j :: 0 <= j < |r| ==> r[j] in keys
    decreases |keys|
  {
    if keys == {} then []
    else
      LeastExists(keys);
      var k :| IsLeast(k, keys);
      [k] + SortedKeys(keys - {k})
  }

  /** The walk of the keys starts with the least one. */
  lemma {:induction false} SortedKeysLeast(keys: set<string>, k: string)
    requires IsLeast(k, keys)
    ensures SortedKeys(keys) == [k] + SortedKeys(keys - {k})
  {
    forall m | IsLeast(m, keys)
      ensures m == k
    {
      if m != k {
        LessTotal(m, k);
      }
    }
  }

  /** The keys come in strictly ascending order. */
  lemma {:induction false} SortedKeysAscending(keys: set<string>)
    ensures var r := SortedKeys(keys); forall i, j :: 0 <= i < j < |r| ==> Less(r[i], r[j])
    decreases |keys|
  {
    if keys != {} {
      var r := SortedKeys(keys);
      var k := r[0];
      assert IsLeast(k, keys) && r == [k] + SortedKeys(keys - {k});
      SortedKeysAscending(keys - {k});
      LeastBeforeRest(k, keys, SortedKeys(keys - {k}));
    }
  }

  lemma {:induction false} LeastBeforeRest(k: string, keys: set<string>, rest: seq<string>)
    requires IsLeast(k, keys)
    requires forall j :: 0 <= j < |rest| ==> rest[j] in keys - {k}
    requires forall i, j :: 0 <= i < j < |rest| ==> Less(rest[i], rest[j])
    ensures forall i, j :: 0 <= i < j < |[k] + rest| ==> Less(([k] + rest)[i], ([k] + rest)[j])
  {
    forall j | 0 <= j < |rest|
      ensures Less(k, rest[j])
    {
      assert rest[j] in keys - {k};
      LessTotal(k, rest[j]);
    }
  }

  /** Sorted keys are distinct. */
  lemma {:induction false} SortedKeysDistinct(keys: set<string>, i: nat, j: nat)
    requires i < j < |SortedKeys(keys)|
    ensures SortedKeys(keys)[i] != SortedKeys(keys)[j]
  {
    SortedKeysAscending(keys);
    LessIrreflexive(SortedKeys(keys)[i]);
  }

  // ---------------------------------------------------------------------
  // Nodes.

  /** The ", " and line break written before every element but the first. */
  function Separator(i: nat): string {
    if i == 0 then "" else ", \n"
  }

  /** Element texts one after the other from the `i`-th on, each after its separator. */
  function Joined(texts: seq<string>, i: nat): string
    requires i <= |texts|
    decreases |texts| - i
  {
    if i == |texts| then "" else Separator(i) + texts[i] + Joined(texts, i + 1)
  }

  /** One dictionary entry: the key between quotes, written without escapes, then ": " and the value. */
  function EntryText(k: string, v: string): string {
    "\"" + k + "\": " + v
  }

  /** A node as the printer writes it. */
  ghost function Print(n: Node, showDouble: real -> string): (r: string)
    decreases n, 1
  {
    match n
    case Null => "null"
    case Bool(b) => if b then "true" else "false"
    case Int(i) => IntToString(i)
    case Double(d) => showDouble(d)
    case Str(t) => Quote(t)
    case Array(items) => "[\n" + Joined(ItemTexts(items, showDouble), 0) + "\n]"
    case Dict(m) =>
      var keys := SortedKeys(m.Keys);
      "{\n" + Joined(Entries(keys, ValueTexts(m, keys, showDouble)), 0) + "\n}"
  }

  /** The printed elements of an array. */
  ghost function ItemTexts(items: seq<Node>, showDouble: real -> string): (r: seq<string>)
    ensures |r| == |items|
    decreases Array(items), 0
  {
    seq(|items|, j requires 0 <= j < |items| => Print(items[j], showDouble))
  }

  /** The printed values of a dictionary, in the order of `keys`. */
  ghost function ValueTexts(m: map<string, Node>, keys: seq<string>, showDouble: real -> string): (r: seq<string>)
    requires forall j :: 0 <= j < |keys| ==> keys[j] in m
    ensures |r| == |keys|
    decreases Dict(m), 0
  {
    seq(|keys|, j requires 0 <= j < |keys| => Print(m[keys[j]], showDouble))
  }

  /** The entries of a dictionary: each key with its printed value. */
  function Entries(keys: seq<string>, texts: seq<string>): (r: seq<string>)
    requires |texts| == |keys|
    ensures |r| == |keys|
  {
    seq(|keys|, j requires 0 <= j < |keys| => EntryText(keys[j], texts[j]))
  }

  /** `json::Print`: the root node of the document. */
  ghost function PrintDocument(root: Node, showDouble: real -> string): string {
    Print(root, showDouble)
  }

  // ---------------------------------------------------------------------
  // Reading printed text back.

  /** A key the reader gets back from its unescaped printed form. */
  predicate PlainKey(k: string) {
    forall i :: 0 <= i < |k| ==> k[i] != '"' && k[i] != '\\'
  }

  /**
   * The nodes whose printed text reads back as themselves: no doubles
   * (their printed form is rounded) and only plain dictionary keys (keys
   * are written without escapes).
   */
  ghost predicate Printable(n: Node)
    decreases n
  {
    match n
    case Double(_) => false
    case Array(items) => forall i :: 0 <= i < |items| ==> Printable(items[i])
    case Dict(m) => forall k :: k in m ==> PlainKey(k) && Printable(m[k])
    case _ => true
  }

  /** Position `e` ends a number: the end of the input, a ',' or a line break. */
  predicate Delimited(s: string, e: nat) {
    e == |s| || (e < |s| && (s[e] == ',' || s[e] == '\n'))
  }

  /** Printed text starts with the character the reader dispatches on. */
  lemma {:induction false} PrintStart(n: Node, showDouble: real -> string)
    requires Printable(n)
    ensures var t := Print(n, showDouble);
            t != [] && !IsSpace(t[0]) && t[0] != ']' && t[0] != '}' && t[0] != ','
  {
    if n.Int? {
      NatToStringDigits(if n.i < 0 then -(n.i as int) else n.i as int);
    }
  }

  lemma {:induction false} LiteralRoundTrip(s: string, p: nat, n: Node, stod: string -> real, showDouble: real -> string)
    requires n.Null? || n.Bool?
    requires At(s, p, Print(n, showDouble))
    ensures ParseNode(s, p, stod) == Ok((n, p + |Print(n, showDouble)|))
  {
    var t := Print(n, showDouble);
    AtIndex(s, p, t, 0);
    ParseNodeLiteral(s, p, stod);
    AtSub(s, p, t, 1, 4);
    if n == Bool(false) {
      assert t == "false" && t[1..4] == "als";
      AtIndex(s, p, t, 4);
    }
  }

  /** The characters of a printed int are what `LoadNumber` reads, and they make an int candidate. */
  lemma {:induction false} IntNumberEnd(s: string, p: nat, i: int32)
    requires At(s, p, IntToString(i)) && Delimited(s, p + |IntToString(i)|)
    ensures NumberEnd(s, p) == Ok((p + |IntToString(i)|, true))
  {
    var t := IntToString(i);
    var n: nat := if i < 0 then -(i as int) else i as int;
    var d := NatToString(n);
    var a := if i < 0 then p + 1 else p;
    var e := p + |t|;
    NatToStringDigits(n);
    AtIndex(s, p, t, 0);
    if i < 0 {
      AtAppend(s, p, "-", d);
    } else {
      assert IsDigit(d[0]);
    }
    AtIndex(s, a, d, 0);
    if n == 0 {
      assert s[a] == '0' && a + 1 == e;
      assert FractionEnd(s, e) == Ok((e, true));
    } else {
      DigitsEndAt(s, a, d);
      assert FractionEnd(s, e) == Ok((e, true));
    }
  }

  /** A printed int before a delimiter reads back as the int. */
  lemma {:induction false} IntRead(s: string, p: nat, i: int32, end: nat, stod: string -> real)
    requires At(s, p, IntToString(i)) && end == p + |IntToString(i)| && Delimited(s, end)
    ensures ParseNode(s, p, stod) == Ok((Int(i), end))
  {
    var t := IntToString(i);
    assert p < |s| && (s[p] == '-' || IsDigit(s[p])) by {
      IntToStringStart(i);
      AtIndex(s, p, t, 0);
    }
    ParseNodeNumber(s, p, stod);
    assert NumberEnd(s, p) == Ok((end, true)) by {
      IntNumberEnd(s, p, i);
    }
    assert DecimalValue(s[p..end]) == i as int by {
      AtSlice(s, p, t);
      IntToStringValue(i);
    }
  }

  lemma {:induction false} IntToStringStart(i: int32)
    ensures IntToString(i)[0] == '-' || IsDigit(IntToString(i)[0])
  {
    NatToStringDigits(if i < 0 then -(i as int) else i as int);
  }

  lemma {:induction false} PrintInt(n: Node, showDouble: real -> string)
    requires n.Int?
    ensures Print(n, showDouble) == IntToString(n.i)
  {
  }

  lemma {:induction false} IntRoundTrip(s: string, p: nat, n: Node, stod: string -> real, showDouble: real -> string)
    requires n.Int? && At(s, p, Print(n, showDouble)) && Delimited(s, p + |Print(n, showDouble)|)
    ensures ParseNode(s, p, stod) == Ok((n, p + |Print(n, showDouble)|))
  {
    PrintInt(n, showDouble);
    IntRead(s, p, n.i, p + |Print(n, showDouble)|, stod);
  }

  /** A printed string reads back as the string. */
  lemma {:induction false} QuoteRead(s: string, p: nat, t: string, end: nat, stod: string -> real)
    requires At(s, p, Quote(t)) && end == p + |Quote(t)|
    ensures ParseNode(s, p, stod) == Ok((Str(t), end))
  {
    AppendAssoc("\"", Escape(t), "\"");
    AtAppend(s, p, "\"", Escape(t) + "\"");
    AtIndex(s, p, "\"", 0);
    EscapeRoundTrip(s, p + 1, t, [], end);
    AppendEmpty(t);
    ParseNodeString(s, p, stod);
  }

  lemma {:induction false} PrintStr(n: Node, showDouble: real -> string)
    requires n.Str?
    ensures Print(n, showDouble) == Quote(n.s)
  {
  }

  lemma {:induction false} StrRoundTrip(s: string, p: nat, n: Node, stod: string -> real, showDouble: real -> string)
    requires n.Str? && At(s, p, Print(n, showDouble))
    ensures ParseNode(s, p, stod) == Ok((n, p + |Print(n, showDouble)|))
  {
    PrintStr(n, showDouble);
    QuoteRead(s, p, n.s, p + |Print(n, showDouble)|, stod);
  }

  /** The printed text of a node reads back as the node. */
  lemma {:induction false} NodeRoundTrip(s: string, p: nat, n: Node, stod: string -> real, showDouble: real -> string)
    requires Printable(n) && At(s, p, Print(n, showDouble)) && Delimited(s, p + |Print(n, showDouble)|)
    ensures ParseNode(s, p, stod) == Ok((n, p + |Print(n, showDouble)|))
    decreases n, 2
  {
    if n.Array? {
      ArrayRoundTrip(s, p, n, stod, showDouble);
    } else if n.Dict? {
      DictRoundTrip(s, p, n, stod, showDouble);
    } else if n.Int? {
      IntRoundTrip(s, p, n, stod, showDouble);
    } else if n.Str? {
      StrRoundTrip(s, p, n, stod, showDouble);
    } else if n.Null? || n.Bool? {
      LiteralRoundTrip(s, p, n, stod, showDouble);
    } else {
      assert false;
    }
  }

  /** Wherever `t` occurs in `s` before a delimiter, the reader reads `n` from it and stops after `t`. */
  ghost predicate ReadsAs(s: string, t: string, n: Node, stod: string -> real) {
    forall q: nat {:trigger At(s, q, t)} :: At(s, q, t) && Delimited(s, q + |t|) ==> ParseNode(s, q, stod) == Ok((n, q + |t|))
  }

  /** A text the reader dispatches on at its first character. */
  predicate StartsNode(t: string) {
    t != [] && !IsSpace(t[0]) && t[0] != ']' && t[0] != '}' && t[0] != ','
  }

  /** The printed text of a node reads back as the node wherever it occurs. */
  lemma {:induction false} NodeReadsAs(s: string, n: Node, stod: string -> real, showDouble: real -> string)
    requires Printable(n)
    ensures StartsNode(Print(n, showDouble)) && ReadsAs(s, Print(n, showDouble), n, stod)
    decreases n, 3
  {
    PrintStart(n, showDouble);
    forall q: nat | At(s, q, Print(n, showDouble)) && Delimited(s, q + |Print(n, showDouble)|)
      ensures ParseNode(s, q, stod) == Ok((n, q + |Print(n, showDouble)|))
    {
      NodeRoundTrip(s, q, n, stod, showDouble);
    }
  }

  /** Where the opening and closing lines of a bracketed text sit. */
  lemma {:induction false} BracketShape(s: string, p: nat, open: char, body: string, close: char)
    requires At(s, p, [open, '\n'] + body + ['\n', close])
    ensures s[p] == open && s[p + 1] == '\n' && At(s, p + 2, body + ['\n', close])
  {
    AtAppend(s, p, [open, '\n'] + body, ['\n', close]);
    AtAppend(s, p, [open, '\n'], body);
    AtAppend(s, p + 2, body, ['\n', close]);
    AtIndex(s, p, [open, '\n'], 0);
    AtIndex(s, p, [open, '\n'], 1);
  }

  /** After the first element, what follows an element starts with ',' or a line break. */
  lemma {:induction false} JoinedTailStart(texts: seq<string>, j: nat, close: char)
    requires 1 <= j <= |texts|
    ensures var t := Joined(texts, j) + ['\n', close]; t[0] == ',' || t[0] == '\n'
  {
  }

  /** The elements from the `i`-th on are its separator, the `i`-th element and the elements after it. */
  lemma {:induction false} JoinedStep(s: string, p: nat, texts: seq<string>, i: nat, close: char)
    requires i < |texts| && At(s, p, Joined(texts, i) + ['\n', close])
    ensures var rest := Joined(texts, i + 1) + ['\n', close];
            && At(s, p, Separator(i) + texts[i] + rest)
            && rest != [] && (rest[0] == ',' || rest[0] == '\n')
            && |Joined(texts, i)| == |Separator(i)| + |texts[i]| + |Joined(texts, i + 1)|
  {
    var sep, t, rest := Separator(i), texts[i], Joined(texts, i + 1);
    assert Joined(texts, i) == sep + t + rest;
    AppendAssoc(sep + t, rest, ['\n', close]);
    JoinedTailStart(texts, i + 1, close);
  }

  /** Where the separator, an element and the rest sit. */
  lemma {:induction false} ElementShape(s: string, p: nat, sep: string, t: string, rest: string, q: nat, e: nat)
    requires sep == "" || sep == ", \n"
    requires At(s, p, sep + t + rest) && q == p + |sep| && e == q + |t|
    ensures && (sep != "" ==> p + 3 <= |s| && s[p] == ',' && s[p + 1] == ' ' && s[p + 2] == '\n')
            && At(s, q, t) && At(s, e, rest)
  {
    AtAppend(s, p, sep + t, rest);
    AtAppend(s, p, sep, t);
    if sep != "" {
      AtIndex(s, p, sep, 0);
      AtIndex(s, p, sep, 1);
      AtIndex(s, p, sep, 2);
    }
  }

  /** The loop of `LoadArray` at ", " and a line break: the ',' is dropped and the node read after the spaces. */
  lemma {:induction false} ElementAfterSeparator(s: string, w: nat, p: nat, acc: seq<Node>, n: Node, e: nat, stod: string -> real)
    requires w <= p && p + 3 <= |s| && SkipWs(s, w) == p
    requires s[p] == ',' && s[p + 1] == ' ' && s[p + 2] == '\n'
    requires ParseNode(s, p + 3, stod) == Ok((n, e))
    ensures ArrayItems(s, w, acc, stod) == ArrayItems(s, e, acc + [n], stod)
  {
    ParseNodeSpace(s, p + 1, stod);
    ParseNodeSpace(s, p + 2, stod);
    ArrayItemsNext(s, w, acc, stod, p + 1, n, e);
  }

  /** A printed node followed by a delimiter reads back where it sits. */
  lemma {:induction false} ValueAt(s: string, q: nat, t: string, rest: string, n: Node, e: nat, stod: string -> real)
    requires StartsNode(t) && ReadsAs(s, t, n, stod) && e == q + |t|
    requires At(s, q, t) && At(s, e, rest) && rest != [] && (rest[0] == ',' || rest[0] == '\n')
    ensures q < |s| && s[q] == t[0] && ParseNode(s, q, stod) == Ok((n, e))
  {
    AtIndex(s, e, rest, 0);
    AtIndex(s, q, t, 0);
  }

  /**
   * The loop of `LoadArray` over one printed element at `p`: the ", " and
   * line break before it when `comma`, then the node.
   */
  lemma {:induction false} ItemRead(s: string, w: nat, p: nat, comma: bool, q: nat, n: Node, e: nat, acc: seq<Node>, stod: string -> real)
    requires w <= p <= |s| && SkipWs(s, w) == SkipWs(s, p)
    requires comma ==> p + 3 <= |s| && s[p] == ',' && s[p + 1] == ' ' && s[p + 2] == '\n'
    requires q == if comma then p + 3 else p
    requires q < |s| && !IsSpace(s[q]) && s[q] != ']' && s[q] != ',' && ParseNode(s, q, stod) == Ok((n, e))
    ensures ArrayItems(s, w, acc, stod) == ArrayItems(s, e, acc + [n], stod)
  {
    SkipWsAt(s, p);
    if comma {
      ElementAfterSeparator(s, w, p, acc, n, e, stod);
    } else {
      ArrayItemsNext(s, w, acc, stod, p, n, e);
    }
  }

  /** The loop of `LoadArray` reads one printed element, after its separator, and appends it. */
  lemma {:induction false} ItemStep(s: string, w: nat, p: nat, i: nat, t: string, rest: string, n: Node, acc: seq<Node>, e: nat, stod: string -> real)
    requires w <= p <= |s| && SkipWs(s, w) == SkipWs(s, p)
    requires StartsNode(t) && ReadsAs(s, t, n, stod)
    requires At(s, p, Separator(i) + t + rest) && rest != [] && (rest[0] == ',' || rest[0] == '\n')
    requires e == p + |Separator(i)| + |t|
    ensures At(s, e, rest) && ArrayItems(s, w, acc, stod) == ArrayItems(s, e, acc + [n], stod)
  {
    var sep := Separator(i);
    var q := p + |sep|;
    ElementShape(s, p, sep, t, rest, q, e);
    ValueAt(s, q, t, rest, n, e, stod);
    ItemRead(s, w, p, i > 0, q, n, e, acc, stod);
  }

  /** The closing line break and bracket end the loop of `LoadArray`. */
  lemma {:induction false} ItemsEnd(s: string, w: nat, p: nat, acc: seq<Node>, stod: string -> real)
    requires w <= p <= |s| && SkipWs(s, w) == SkipWs(s, p)
    requires At(s, p, "\n]")
    ensures ArrayItems(s, w, acc, stod) == Ok((Array(acc), p + 2))
  {
    AtIndex(s, p, "\n]", 0);
    AtIndex(s, p, "\n]", 1);
    SkipWsSpace(s, p);
    SkipWsAt(s, p + 1);
    ArrayItemsClose(s, w, acc, stod);
  }

  /** Every printed element text reads back as its element. */
  ghost predicate ItemsRead(s: string, items: seq<Node>, texts: seq<string>, stod: string -> real)
    requires |texts| == |items|
  {
    forall j :: 0 <= j < |items| ==> StartsNode(texts[j]) && ReadsAs(s, texts[j], items[j], stod)
  }

  /** The loop of `LoadArray` reads the printed elements from the `i`-th on and stops after the bracket at `end`. */
  lemma {:induction false} ItemsLoop(s: string, w: nat, p: nat, items: seq<Node>, texts: seq<string>, i: nat, end: nat, stod: string -> real)
    requires |texts| == |items| && i <= |items|
    requires ItemsRead(s, items, texts, stod)
    requires w <= p <= |s| && SkipWs(s, w) == SkipWs(s, p)
    requires At(s, p, Joined(texts, i) + "\n]")
    requires end == p + |Joined(texts, i)| + 2
    ensures ArrayItems(s, w, items[..i], stod) == Ok((Array(items), end))
    decreases |items| - i, 1
  {
    if i == |items| {
      assert Joined(texts, i) + "\n]" == "\n]";
      PrefixEnds(items);
      ItemsEnd(s, w, p, items, stod);
    } else {
      ItemsMore(s, w, p, items, texts, i, end, stod);
    }
  }

  /** The loop of `LoadArray` over the `i`-th printed element and those after it. */
  lemma {:induction false} ItemsMore(s: string, w: nat, p: nat, items: seq<Node>, texts: seq<string>, i: nat, end: nat, stod: string -> real)
    requires |texts| == |items| && i < |items|
    requires ItemsRead(s, items, texts, stod)
    requires w <= p <= |s| && SkipWs(s, w) == SkipWs(s, p)
    requires At(s, p, Joined(texts, i) + "\n]")
    requires end == p + |Joined(texts, i)| + 2
    ensures ArrayItems(s, w, items[..i], stod) == Ok((Array(items), end))
    decreases |items| - i, 0
  {
    var e := ItemsAdvance(s, w, p, items, texts, i, end, stod);
    ItemsLoop(s, e, e, items, texts, i + 1, end, stod);
  }

  /** One element of the loop of `LoadArray`: the text left and the elements read so far move on by one. */
  lemma {:induction false} ItemsAdvance(s: string, w: nat, p: nat, items: seq<Node>, texts: seq<string>, i: nat, end: nat, stod: string -> real)
      returns (e: nat)
    requires |texts| == |items| && i < |items|
    requires ItemsRead(s, items, texts, stod)
    requires w <= p <= |s| && SkipWs(s, w) == SkipWs(s, p)
    requires At(s, p, Joined(texts, i) + "\n]")
    requires end == p + |Joined(texts, i)| + 2
    ensures e <= |s|
    ensures At(s, e, Joined(texts, i + 1) + "\n]")
    ensures end == e + |Joined(texts, i + 1)| + 2
    ensures ArrayItems(s, w, items[..i], stod) == ArrayItems(s, e, items[..i + 1], stod)
  {
    JoinedStep(s, p, texts, i, ']');
    e := p + |Separator(i)| + |texts[i]|;
    ItemStep(s, w, p, i, texts[i], Joined(texts, i + 1) + "\n]", items[i], items[..i], e, stod);
    SliceSnoc(items, i);
  }

  /** `LoadArray` reads a bracketed text of printed elements, one per line, as the array of those elements. */
  lemma {:induction false} ArrayRead(s: string, p: nat, items: seq<Node>, texts: seq<string>, end: nat, stod: string -> real)
    requires |texts| == |items|
    requires ItemsRead(s, items, texts, stod)
    requires At(s, p, "[\n" + Joined(texts, 0) + "\n]")
    requires end == p + |Joined(texts, 0)| + 4
    ensures ParseNode(s, p, stod) == Ok((Array(items), end))
  {
    BracketShape(s, p, '[', Joined(texts, 0), ']');
    ParseNodeArray(s, p, stod);
    assert LoadArray(s, p + 1, stod) == ArrayItems(s, p + 1, [], stod);
    SkipWsSpace(s, p + 1);
    assert items[..0] == [];
    ItemsLoop(s, p + 1, p + 2, items, texts, 0, end, stod);
  }

  lemma {:induction false} PrintArray(n: Node, showDouble: real -> string)
    requires n.Array?
    ensures Print(n, showDouble) == "[\n" + Joined(ItemTexts(n.items, showDouble), 0) + "\n]"
  {
  }

  lemma {:induction false} ArrayRoundTrip(s: string, p: nat, n: Node, stod: string -> real, showDouble: real -> string)
    requires n.Array? && Printable(n) && At(s, p, Print(n, showDouble))
    ensures ParseNode(s, p, stod) == Ok((n, p + |Print(n, showDouble)|))
    decreases n, 1
  {
    var items := n.items;
    var texts := ItemTexts(items, showDouble);
    PrintArray(n, showDouble);
    forall j | 0 <= j < |items|
      ensures StartsNode(texts[j]) && ReadsAs(s, texts[j], items[j], stod)
    {
      NodeReadsAs(s, items[j], stod, showDouble);
    }
    ArrayRead(s, p, items, texts, p + |Print(n, showDouble)|, stod);
  }

  /**
   * The map of the first `i` keys with their values, each added by
   * `insert`, which leaves a key already present as it is.
   */
  function Zip(keys: seq<string>, vals: seq<Node>, i: nat): map<string, Node>
    requires i <= |keys| == |vals|
  {
    if i == 0 then map[]
    else
      var z := Zip(keys, vals, i - 1);
      if keys[i - 1] in z then z else z[keys[i - 1] := vals[i - 1]]
  }

  /** A key none of the first `i` keys equals is not in the map yet. */
  lemma {:induction false} ZipOnly(keys: seq<string>, vals: seq<Node>, i: nat, k: string)
    requires i <= |keys| == |vals|
    requires forall j :: 0 <= j < i ==> keys[j] != k
    ensures k !in Zip(keys, vals, i)
  {
    if i > 0 {
      ZipOnly(keys, vals, i - 1, k);
    }
  }

  /** With distinct keys the map holds exactly the listed keys, each with its own value. */
  lemma {:induction false} ZipSpec(keys: seq<string>, vals: seq<Node>, i: nat)
    requires i <= |keys| == |vals|
    requires forall a, b :: 0 <= a < b < |keys| ==> keys[a] != keys[b]
    ensures forall j :: 0 <= j < i ==> keys[j] in Zip(keys, vals, i) && Zip(keys, vals, i)[keys[j]] == vals[j]
    ensures forall k :: k in Zip(keys, vals, i) ==> exists j :: 0 <= j < i && keys[j] == k
  {
    if i > 0 {
      ZipSpec(keys, vals, i - 1);
      ZipOnly(keys, vals, i - 1, keys[i - 1]);
    }
  }

  /** One more key: inserted unless already present. */
  lemma {:induction false} ZipNext(keys: seq<string>, vals: seq<Node>, i: nat)
    requires i < |keys| == |vals|
    ensures var z := Zip(keys, vals, i);
            Zip(keys, vals, i + 1) == if keys[i] in z then z else z[keys[i] := vals[i]]
  {
  }

  /** Every key of the map is listed. */
  lemma {:induction false} SortedKeysComplete(keys: set<string>, k: string)
    requires k in keys
    ensures exists j :: 0 <= j < |SortedKeys(keys)| && SortedKeys(keys)[j] == k
    decreases |keys|
  {
    var r := SortedKeys(keys);
    var least := r[0];
    assert r == [least] + SortedKeys(keys - {least});
    if k != least {
      SortedKeysComplete(keys - {least}, k);
      var j :| 0 <= j < |SortedKeys(keys - {least})| && SortedKeys(keys - {least})[j] == k;
      assert r[j + 1] == k;
    }
  }

  /** The keys of a map in ascending order, each with its value, make the map again. */
  lemma {:induction false} ZipSorted(m: map<string, Node>, vals: seq<Node>)
    requires |vals| == |SortedKeys(m.Keys)|
    requires forall j :: 0 <= j < |vals| ==> vals[j] == m[SortedKeys(m.Keys)[j]]
    ensures Zip(SortedKeys(m.Keys), vals, |SortedKeys(m.Keys)|) == m
  {
    var keys := SortedKeys(m.Keys);
    var z := Zip(keys, vals, |vals|);
    forall a, b | 0 <= a < b < |keys|
      ensures keys[a] != keys[b]
    {
      SortedKeysDistinct(m.Keys, a, b);
    }
    ZipSpec(keys, vals, |vals|);
    forall k | k in m
      ensures k in z && z[k] == m[k]
    {
      SortedKeysComplete(m.Keys, k);
    }
    assert z.Keys == m.Keys;
  }

  /** A plain key and its closing quote read back as the key, up to `end` after the quote. */
  lemma {:induction false} KeyRoundTrip(s: string, q: nat, k: string, end: nat)
    requires PlainKey(k) && At(s, q, k + "\"") && end == q + |k| + 1
    ensures ParseString(s, q) == Ok((k, end))
  {
    AtAppend(s, q, k, "\"");
    AtIndex(s, q + |k|, "\"", 0);
    forall j | q <= j < q + |k|
      ensures s[j] != '"' && s[j] != '\\'
    {
      AtIndex(s, q, k, j - q);
    }
    AtSlice(s, q, k);
    StringBodyRaw(s, q, q + |k|, []);
    AppendEmpty(k);
  }

  /** Where the opening quote, the key, the ": " and the value of an entry sit. */
  lemma {:induction false} EntryShape(s: string, r0: nat, k: string, t: string, vq: nat)
    requires At(s, r0, EntryText(k, t)) && vq == r0 + |k| + 4
    ensures && r0 < |s| && s[r0] == '"'
            && At(s, r0 + 1, k + "\"")
            && vq <= |s| && s[vq - 2] == ':' && s[vq - 1] == ' '
            && At(s, vq, t)
  {
    AtAppend(s, r0, "\"" + k + "\": ", t);
    AtAppend(s, r0, "\"" + k, "\": ");
    AtAppend(s, r0, "\"", k);
    AtIndex(s, r0, "\"", 0);
    AtIndex(s, r0 + 1 + |k|, "\": ", 1);
    AtIndex(s, r0 + 1 + |k|, "\": ", 2);
    AtAppend(s, r0 + 1 + |k|, "\"", ": ");
    AtAppend(s, r0 + 1, k, "\"");
  }

  /** The loop of `LoadDict` finds the opening quote of a key at `r0`, after ", " and a line break when `comma`. */
  lemma {:induction false} KeyStartAt(s: string, w: nat, p: nat, comma: bool, r0: nat)
    requires w <= p <= |s| && SkipWs(s, w) == SkipWs(s, p)
    requires comma ==> p + 3 <= |s| && s[p] == ',' && s[p + 1] == ' ' && s[p + 2] == '\n'
    requires r0 == (if comma then p + 3 else p) && r0 < |s| && s[r0] == '"'
    ensures var q := SkipWs(s, w);
            && q < |s| && s[q] != '}'
            && (if s[q] == ',' then AfterChar(s, q + 1) else q + 1) == r0 + 1
  {
    SkipWsAt(s, p);
    if comma {
      SkipWsSpace(s, p + 1);
      SkipWsSpace(s, p + 2);
      SkipWsAt(s, p + 3);
    }
  }

  /** After a key, ':' and a space lead to the value at `vq`. */
  lemma {:induction false} ValueStartAt(s: string, afterKey: nat, vq: nat, stod: string -> real)
    requires afterKey + 2 == vq <= |s| && s[afterKey] == ':' && s[afterKey + 1] == ' '
    ensures ParseNode(s, AfterChar(s, afterKey), stod) == ParseNode(s, vq, stod)
  {
    SkipWsAt(s, afterKey);
    ParseNodeSpace(s, afterKey + 1, stod);
  }

  /**
   * The loop of `LoadDict` over one printed entry at `p`: the ", " and line
   * break before it when `comma`, the key between quotes, ": ", and the value.
   */
  lemma {:induction false} EntryRead(s: string, w: nat, p: nat, comma: bool, r0: nat, k: string, vq: nat, v: Node, e: nat,
                  acc: map<string, Node>, stod: string -> real)
    requires w <= p <= |s| && SkipWs(s, w) == SkipWs(s, p)
    requires comma ==> p + 3 <= |s| && s[p] == ',' && s[p + 1] == ' ' && s[p + 2] == '\n'
    requires r0 == (if comma then p + 3 else p) && vq == r0 + |k| + 4
    requires && r0 < |s| && s[r0] == '"' && PlainKey(k) && At(s, r0 + 1, k + "\"")
             && vq <= |s| && s[vq - 2] == ':' && s[vq - 1] == ' '
             && ParseNode(s, vq, stod) == Ok((v, e))
    ensures DictItems(s, w, acc, stod) == DictItems(s, e, Emplace(acc, k, v), stod)
  {
    var afterKey := vq - 2;
    KeyStartAt(s, w, p, comma, r0);
    KeyRoundTrip(s, r0 + 1, k, afterKey);
    ValueStartAt(s, afterKey, vq, stod);
    DictItemsNext(s, w, acc, stod, r0 + 1, k, afterKey, v, e);
  }

  /** The loop of `LoadDict` reads one printed entry, after its separator, and inserts it. */
  lemma {:induction false} EntryStep(s: string, w: nat, p: nat, i: nat, k: string, t: string, x: string, rest: string, v: Node,
                  acc: map<string, Node>, e: nat, stod: string -> real)
    requires w <= p <= |s| && SkipWs(s, w) == SkipWs(s, p)
    requires PlainKey(k) && StartsNode(t) && ReadsAs(s, t, v, stod)
    requires x == EntryText(k, t)
    requires At(s, p, Separator(i) + x + rest) && rest != [] && (rest[0] == ',' || rest[0] == '\n')
    requires e == p + |Separator(i)| + |x|
    ensures At(s, e, rest) && DictItems(s, w, acc, stod) == DictItems(s, e, Emplace(acc, k, v), stod)
  {
    var sep := Separator(i);
    var r0 := p + |sep|;
    var vq := r0 + |k| + 4;
    assert |x| == |k| + 4 + |t|;
    ElementShape(s, p, sep, x, rest, r0, e);
    EntryShape(s, r0, k, t, vq);
    ValueAt(s, vq, t, rest, v, e, stod);
    EntryRead(s, w, p, i > 0, r0, k, vq, v, e, acc, stod);
  }

  /** The closing line break and brace end the loop of `LoadDict`. */
  lemma {:induction false} EntriesEnd(s: string, w: nat, p: nat, acc: map<string, Node>, stod: string -> real)
    requires w <= p <= |s| && SkipWs(s, w) == SkipWs(s, p)
    requires At(s, p, "\n}")
    ensures DictItems(s, w, acc, stod) == Ok((Dict(acc), p + 2))
  {
    AtIndex(s, p, "\n}", 0);
    AtIndex(s, p, "\n}", 1);
    SkipWsSpace(s, p);
    SkipWsAt(s, p + 1);
    DictItemsClose(s, w, acc, stod);
  }

  /** One turn of the loop of `LoadDict` over the `i`-th printed entry: it ends at `e` with the entry inserted. */
  lemma {:induction false} EntryNext(s: string, w: nat, p: nat, keys: seq<string>, vals: seq<Node>, texts: seq<string>, i: nat, stod: string -> real)
      returns (e: nat)
    requires |vals| == |keys| && |texts| == |keys| && i < |keys|
    requires PlainKey(keys[i]) && StartsNode(texts[i]) && ReadsAs(s, texts[i], vals[i], stod)
    requires w <= p <= |s| && SkipWs(s, w) == SkipWs(s, p)
    requires At(s, p, Joined(Entries(keys, texts), i) + "\n}")
    ensures e <= |s| && At(s, e, Joined(Entries(keys, texts), i + 1) + "\n}")
    ensures p + |Joined(Entries(keys, texts), i)| == e + |Joined(Entries(keys, texts), i + 1)|
    ensures DictItems(s, w, Zip(keys, vals, i), stod) == DictItems(s, e, Zip(keys, vals, i + 1), stod)
  {
    var entries := Entries(keys, texts);
    JoinedStep(s, p, entries, i, '}');
    e := p + |Separator(i)| + |entries[i]|;
    EntryStep(s, w, p, i, keys[i], texts[i], entries[i], Joined(entries, i + 1) + "\n}", vals[i], Zip(keys, vals, i), e, stod);
    ZipNext(keys, vals, i);
  }

  /** After the last entry the loop of `LoadDict` stops with all entries read. */
  lemma {:induction false} EntriesDone(s: string, w: nat, p: nat, keys: seq<string>, vals: seq<Node>, texts: seq<string>,
                                       end: nat, stod: string -> real)
    requires |vals| == |keys| && |texts| == |keys|
    requires w <= p <= |s| && SkipWs(s, w) == SkipWs(s, p)
    requires At(s, p, Joined(Entries(keys, texts), |keys|) + "\n}")
    requires end == p + |Joined(Entries(keys, texts), |keys|)| + 2
    ensures DictItems(s, w, Zip(keys, vals, |keys|), stod) == Ok((Dict(Zip(keys, vals, |keys|)), end))
  {
    assert Joined(Entries(keys, texts), |keys|) + "\n}" == "\n}";
    EntriesEnd(s, w, p, Zip(keys, vals, |keys|), stod);
  }

  /** Every key is plain and every printed value text reads back as its value. */
  ghost predicate EntriesRead(s: string, keys: seq<string>, vals: seq<Node>, texts: seq<string>, stod: string -> real)
    requires |vals| == |keys| && |texts| == |keys|
  {
    forall j :: 0 <= j < |keys| ==> PlainKey(keys[j]) && StartsNode(texts[j]) && ReadsAs(s, texts[j], vals[j], stod)
  }

  /** The loop of `LoadDict` reads the printed entries from the `i`-th on and stops after the brace at `end`. */
  lemma {:induction false} EntriesLoop(s: string, w: nat, p: nat, keys: seq<string>, vals: seq<Node>, texts: seq<string>,
                                       i: nat, end: nat, stod: string -> real)
    requires |vals| == |keys| && |texts| == |keys| && i <= |keys|
    requires EntriesRead(s, keys, vals, texts, stod)
    requires w <= p <= |s| && SkipWs(s, w) == SkipWs(s, p)
    requires At(s, p, Joined(Entries(keys, texts), i) + "\n}")
    requires end == p + |Joined(Entries(keys, texts), i)| + 2
    ensures DictItems(s, w, Zip(keys, vals, i), stod) == Ok((Dict(Zip(keys, vals, |keys|)), end))
    decreases |keys| - i, 1
  {
    if i == |keys| {
      EntriesDone(s, w, p, keys, vals, texts, end, stod);
    } else {
      EntriesMore(s, w, p, keys, vals, texts, i, end, stod);
    }
  }

  /** The loop of `LoadDict` over the `i`-th printed entry and those after it. */
  lemma {:induction false} EntriesMore(s: string, w: nat, p: nat, keys: seq<string>, vals: seq<Node>, texts: seq<string>,
                                       i: nat, end: nat, stod: string -> real)
    requires |vals| == |keys| && |texts| == |keys| && i < |keys|
    requires EntriesRead(s, keys, vals, texts, stod)
    requires w <= p <= |s| && SkipWs(s, w) == SkipWs(s, p)
    requires At(s, p, Joined(Entries(keys, texts), i) + "\n}")
    requires end == p + |Joined(Entries(keys, texts), i)| + 2
    ensures DictItems(s, w, Zip(keys, vals, i), stod) == Ok((Dict(Zip(keys, vals, |keys|)), end))
    decreases |keys| - i, 0
  {
    var e := EntriesAdvance(s, w, p, keys, vals, texts, i, end, stod);
    EntriesLoop(s, e, e, keys, vals, texts, i + 1, end, stod);
  }

  lemma {:induction false} EntriesAdvance(s: string, w: nat, p: nat, keys: seq<string>, vals: seq<Node>, texts: seq<string>,
                                          i: nat, end: nat, stod: string -> real)
      returns (e: nat)
    requires |vals| == |keys| && |texts| == |keys| && i < |keys|
    requires EntriesRead(s, keys, vals, texts, stod)
    requires w <= p <= |s| && SkipWs(s, w) == SkipWs(s, p)
    requires At(s, p, Joined(Entries(keys, texts), i) + "\n}")
    requires end == p + |Joined(Entries(keys, texts), i)| + 2
    ensures e <= |s|
    ensures At(s, e, Joined(Entries(keys, texts), i + 1) + "\n}")
    ensures end == e + |Joined(Entries(keys, texts), i + 1)| + 2
    ensures DictItems(s, w, Zip(keys, vals, i), stod) == DictItems(s, e, Zip(keys, vals, i + 1), stod)
  {
    e := EntryNext(s, w, p, keys, vals, texts, i, stod);
  }

  /** `LoadDict` reads a braced text of printed entries, one per line, as the map of those entries. */
  lemma {:induction false} DictRead(s: string, p: nat, n: Node, keys: seq<string>, vals: seq<Node>, texts: seq<string>,
                 end: nat, stod: string -> real)
    requires |vals| == |keys| && |texts| == |keys|
    requires EntriesRead(s, keys, vals, texts, stod)
    requires n == Dict(Zip(keys, vals, |keys|))
    requires At(s, p, "{\n" + Joined(Entries(keys, texts), 0) + "\n}")
    requires end == p + |Joined(Entries(keys, texts), 0)| + 4
    ensures ParseNode(s, p, stod) == Ok((n, end))
  {
    BracketShape(s, p, '{', Joined(Entries(keys, texts), 0), '}');
    ParseNodeDict(s, p, stod);
    assert LoadDict(s, p + 1, stod) == DictItems(s, p + 1, map[], stod);
    SkipWsSpace(s, p + 1);
    assert Zip(keys, vals, 0) == map[];
    EntriesLoop(s, p + 1, p + 2, keys, vals, texts, 0, end, stod);
  }

  /** The values of a dictionary, in the order of `keys`. */
  function Values(m: map<string, Node>, keys: seq<string>): (r: seq<Node>)
    requires forall j :: 0 <= j < |keys| ==> keys[j] in m
    ensures |r| == |keys|
  {
    seq(|keys|, j requires 0 <= j < |keys| => m[keys[j]])
  }

  /** The sorted keys, the values and their printed texts of a printable dictionary are fit for `DictRead`. */
  lemma {:induction false} DictParts(s: string, n: Node, stod: string -> real, showDouble: real -> string)
    requires n.Dict? && Printable(n)
    ensures var m := n.entries;
            var keys := SortedKeys(m.Keys);
            var vals, texts := Values(m, keys), ValueTexts(m, keys, showDouble);
            && (forall j :: 0 <= j < |keys| ==> PlainKey(keys[j]) && StartsNode(texts[j]) && ReadsAs(s, texts[j], vals[j], stod))
            && n == Dict(Zip(keys, vals, |keys|))
    decreases n, 0
  {
    var m := n.entries;
    var keys := SortedKeys(m.Keys);
    var vals, texts := Values(m, keys), ValueTexts(m, keys, showDouble);
    forall j | 0 <= j < |keys|
      ensures PlainKey(keys[j]) && StartsNode(texts[j]) && ReadsAs(s, texts[j], vals[j], stod)
    {
      NodeReadsAs(s, m[keys[j]], stod, showDouble);
    }
    ZipSorted(m, vals);
  }

  lemma {:induction false} PrintDict(n: Node, showDouble: real -> string)
    requires n.Dict?
    ensures var keys := SortedKeys(n.entries.Keys);
            Print(n, showDouble) == "{\n" + Joined(Entries(keys, ValueTexts(n.entries, keys, showDouble)), 0) + "\n}"
  {
  }

  lemma {:induction false} DictRoundTrip(s: string, p: nat, n: Node, stod: string -> real, showDouble: real -> string)
    requires n.Dict? && Printable(n) && At(s, p, Print(n, showDouble))
    ensures ParseNode(s, p, stod) == Ok((n, p + |Print(n, showDouble)|))
    decreases n, 1
  {
    var m := n.entries;
    var keys := SortedKeys(m.Keys);
    PrintDict(n, showDouble);
    DictParts(s, n, stod, showDouble);
    DictRead(s, p, n, keys, Values(m, keys), ValueTexts(m, keys, showDouble), p + |Print(n, showDouble)|, stod);
  }

  /** A printed document without doubles and with plain keys reads back as the same document. */
  lemma {:induction false} LoadPrintRoundTrip(root: Node, stod: string -> real, showDouble: real -> string)
    requires Printable(root)
    ensures Load(PrintDocument(root, showDouble), stod) == Ok(root)
  {
    var s := PrintDocument(root, showDouble);
    AtWhole(s);
    NodeRoundTrip(s, 0, root, stod, showDouble);
  }
}
