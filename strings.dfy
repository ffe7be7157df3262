/**
 * The `detail` string-view helpers of the line-format reader:
 * `Split`, `Lstrip`, `Rstrip` and `TrimString`, plus the byte-wise
 * ordering that `std::string` comparison uses.
 *
 * A `std::string_view` is modelled as the `string` it shows; `npos`
 * (the "not found" position of `find`) is modelled as the length of
 * the string, which `substr` and the bounds tests treat the same way.
 */
module Strings {

  /** `std::isspace` in the "C" locale: blank, or one of \t \n \v \f \r (codes 9 to 13). */
  predicate IsSpace(c: char) {
    c == ' ' || '\t' <= c <= '\r'
  }

  /** Number of occurrences of `c` in `s`. */
  function Occurrences(s: string, c: char): nat {
    if s == [] then 0 else (if s[|s| - 1] == c then 1 else 0) + Occurrences(s[..|s| - 1], c)
  }

  lemma {:induction false} OccurrencesAppend(s: string, t: string, c: char)
    ensures Occurrences(s + t, c) == Occurrences(s, c) + Occurrences(t, c)
    decreases |t|
  {
    if t == [] {
      assert s + t == s;
    } else {
      assert (s + t)[..|s + t| - 1] == s + t[..|t| - 1];
      OccurrencesAppend(s, t[..|t| - 1], c);
    }
  }

  /** Occurrences of `c` in a stretch that does not contain it. */
  lemma {:induction false} OccurrencesNone(s: string, c: char)
    requires forall i :: 0 <= i < |s| ==> s[i] != c
    ensures Occurrences(s, c) == 0
    decreases |s|
  {
    if s != [] {
      OccurrencesNone(s[..|s| - 1], c);
    }
  }

  /**
   * `string_view::find(c, from)`: the first position at or after `from`
   * holding `c`, or `|s|` (npos) when there is none.
   */
  function Find(s: string, c: char, from: nat): (r: nat)
    ensures r <= |s|
    ensures r < |s| ==> from <= r && s[r] == c
    ensures forall i :: from <= i < r ==> s[i] != c
    decreases |s| - from
  {
    if from >= |s| then |s| else if s[from] == c then from else Find(s, c, from + 1)
  }

  /**
   * The loop of `Split`: starting from an occurrence `pos` of `c` (or npos),
   * step `k` more times to the next occurrence, stopping at npos.
   */
  function SkipOccurrences(s: string, c: char, pos: nat, k: nat): (r: nat)
    requires pos <= |s|
    requires pos < |s| ==> s[pos] == c
    ensures pos <= r <= |s|
    ensures r < |s| ==> s[r] == c && Occurrences(s[..r], c) == Occurrences(s[..pos], c) + k
    ensures r == |s| ==> Occurrences(s, c) <= Occurrences(s[..pos], c) + k
    decreases k
  {
    if k == 0 || pos == |s| then
      assert pos == |s| ==> s[..pos] == s;
      pos
    else
      var next := Find(s, c, pos + 1);
      var r := SkipOccurrences(s, c, next, k - 1);
      assert Occurrences(s[..next], c) == Occurrences(s[..pos], c) + 1 by {
        assert s[..next] == s[..pos] + s[pos..pos + 1] + s[pos + 1..next];
        OccurrencesAppend(s[..pos] + s[pos..pos + 1], s[pos + 1..next], c);
        OccurrencesAppend(s[..pos], s[pos..pos + 1], c);
        OccurrencesNone(s[pos + 1..next], c);
        assert s[pos..pos + 1][..0] == [];
      }
      r
  }

  /** How many occurrences of the delimiter precede the one `Split` cuts at. */
  function Wanted(count: int): nat {
    if count > 1 then count - 1 else 0
  }

  /**
   * `detail::Split(line, delim, count)`: cut `line` at the `count`-th
   * occurrence of `delim`, dropping the delimiter. `SplitSpec` states
   * what the two parts are.
   */
  function Split(line: string, delim: char, count: int): (r: (string, string))
    ensures |r.0| <= |line|
    ensures |r.1| <= |line| && (line != [] ==> |r.1| < |line|)
  {
    var first := Find(line, delim, 0);
    OccurrencesNone(line[..first], delim);
    var pos := SkipOccurrences(line, delim, first, Wanted(count));
    var left := line[..pos];
    if pos < |line| && pos + 1 < |line| then (left, line[pos + 1..]) else (left, [])
  }

  /**
   * The left part is a prefix of the line. When the wanted occurrence
   * exists, the left part holds exactly `count - 1` delimiters (none when
   * `count` is at most 1), the delimiter follows it and the right part is
   * everything after that delimiter (empty when it is the last character).
   * When it does not exist the whole line is the left part and the right
   * part is empty.
   */
  lemma {:induction false} SplitSpec(line: string, delim: char, count: int)
    ensures var r := Split(line, delim, count);
            && r.0 == line[..|r.0|]
            && (|r.0| < |line| ==>
                  line[|r.0|] == delim && Occurrences(r.0, delim) == Wanted(count) && r.1 == line[|r.0| + 1..])
            && (|r.0| == |line| ==> r.1 == [] && Occurrences(line, delim) <= Wanted(count))
  {
    var first := Find(line, delim, 0);
    OccurrencesNone(line[..first], delim);
    var pos := SkipOccurrences(line, delim, first, Wanted(count));
    assert first == |line| ==> line[..first] == line;
  }

  /** The right part of a split is a suffix of the line. */
  lemma {:induction false} SplitRightIsSuffix(line: string, delim: char, count: int)
    ensures Split(line, delim, count).1 == line[|line| - |Split(line, delim, count).1|..]
  {
    SplitSpec(line, delim, count);
  }

  /** A suffix of a suffix is a suffix. */
  lemma {:induction false} SuffixTrans(a: string, b: string, c: string)
    requires |b| <= |c| && b == c[|c| - |b|..]
    requires |a| <= |b| && a == b[|b| - |a|..]
    ensures a == c[|c| - |a|..]
  {
    assert c[|c| - |b|..][|b| - |a|..] == c[|c| - |a|..];
  }

  /** `detail::Lstrip`: drop the leading whitespace. */
  function Lstrip(line: string): (r: string)
    ensures |r| <= |line|
    ensures r == [] || !IsSpace(r[0])
  {
    if line != [] && IsSpace(line[0]) then Lstrip(line[1..]) else line
  }

  /** `Lstrip` keeps a suffix of the line and drops only whitespace. */
  lemma {:induction false} LstripSpec(line: string)
    ensures Lstrip(line) == line[|line| - |Lstrip(line)|..]
    ensures forall i :: 0 <= i < |line| - |Lstrip(line)| ==> IsSpace(line[i])
  {
    if line != [] && IsSpace(line[0]) {
      LstripSpec(line[1..]);
      forall i | 0 < i < |line| - |Lstrip(line)|
        ensures IsSpace(line[i])
      {
        assert line[i] == line[1..][i - 1];
      }
    }
  }

  /** `detail::Rstrip`: drop the trailing whitespace. */
  function Rstrip(line: string): (r: string)
    ensures |r| <= |line|
    ensures r == [] || !IsSpace(r[|r| - 1])
  {
    if line != [] && IsSpace(line[|line| - 1]) then Rstrip(line[..|line| - 1]) else line
  }

  /** `Rstrip` keeps a prefix of the line and drops only whitespace. */
  lemma {:induction false} RstripSpec(line: string)
    ensures Rstrip(line) == line[..|Rstrip(line)|]
    ensures forall i :: |Rstrip(line)| <= i < |line| ==> IsSpace(line[i])
  {
    if line != [] && IsSpace(line[|line| - 1]) {
      RstripSpec(line[..|line| - 1]);
    }
  }

  /** `r` sits in `line` at offset `a`, with only whitespace before and after it. */
  predicate Framed(line: string, a: nat, r: string) {
    && a + |r| <= |line| && r == line[a..a + |r|]
    && (forall i :: 0 <= i < a ==> IsSpace(line[i]))
    && (forall i :: a + |r| <= i < |line| ==> IsSpace(line[i]))
  }

  /** `detail::TrimString`: `Rstrip` after `Lstrip`. */
  function TrimString(line: string): (r: string)
    ensures |r| <= |line|
    ensures r == [] || (!IsSpace(r[0]) && !IsSpace(r[|r| - 1]))
  {
    RstripSpec(Lstrip(line));
    Rstrip(Lstrip(line))
  }

  /** The trimmed string is the stretch of `line` between its leading and its trailing whitespace. */
  lemma {:induction false} TrimStringSpec(line: string)
    ensures exists a :: Framed(line, a, TrimString(line))
  {
    var l := Lstrip(line);
    LstripSpec(line);
    RstripSpec(l);
    var a := |line| - |l|;
    var r := Rstrip(l);
    forall i | a + |r| <= i < |line|
      ensures IsSpace(line[i])
    {
      assert line[i] == l[i - a];
    }
    assert r == line[a..a + |r|];
    assert TrimString(line) == r;
    assert Framed(line, a, r);
  }

  /** Stripping a string that has no whitespace at that end changes nothing. */
  lemma {:induction false} LstripTrimmed(s: string)
    requires s == [] || !IsSpace(s[0])
    ensures Lstrip(s) == s
  {
  }

  /** Trimming is idempotent: a trimmed string is its own trim. */
  lemma {:induction false} TrimStringIdempotent(s: string)
    ensures TrimString(TrimString(s)) == TrimString(s)
  {
    var t := TrimString(s);
    LstripTrimmed(t);
    assert Rstrip(t) == t;
  }

  /** A string without surrounding whitespace is left as it is by the trim. */
  lemma {:induction false} TrimStringKeepsMiddle(s: string)
    requires s == [] || (!IsSpace(s[0]) && !IsSpace(s[|s| - 1]))
    ensures TrimString(s) == s
  {
    LstripTrimmed(s);
  }

  /** `std::string` `operator<`: lexicographic comparison of the characters. */
  predicate Less(a: string, b: string) {
    if a == [] then b != []
    else if b == [] then false
    else if a[0] != b[0] then a[0] < b[0]
    else Less(a[1..], b[1..])
  }

  lemma {:induction false} LessIrreflexive(a: string)
    ensures !Less(a, a)
  {
    if a != [] {
      LessIrreflexive(a[1..]);
    }
  }

  lemma {:induction false} LessTransitive(a: string, b: string, c: string)
    requires Less(a, b) && Less(b, c)
    ensures Less(a, c)
  {
    if a != [] && b != [] && c != [] && a[0] == b[0] && b[0] == c[0] {
      LessTransitive(a[1..], b[1..], c[1..]);
    }
  }

  lemma {:induction false} LessTotal(a: string, b: string)
    requires a != b
    ensures Less(a, b) || Less(b, a)
  {
    if a != [] && b != [] && a[0] == b[0] {
      assert a == [a[0]] + a[1..] && b == [b[0]] + b[1..];
      assert a[1..] != b[1..];
      LessTotal(a[1..], b[1..]);
    }
  }
}
