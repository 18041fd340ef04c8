/** Shared vocabulary of the adapter model: failure-carrying datatypes, the PHP
    scalar values that travel through the driver, and the PHP string functions
    the adapter relies on (substr, explode, implode, str_replace, trim, rtrim,
    strtolower and integer-to-string conversion), each with the facts the rest
    of the model needs. */
module Common {

  datatype Option<T> = None | Some(value: T)

  /** The result of an operation that PHP would end by throwing an exception. */
  datatype Result<T, E> = Ok(value: T) | Err(error: E)

  /** The result of an operation that returns nothing useful but may throw. */
  datatype Outcome<E> = Pass | Fail(error: E)

  /** A PHP scalar as it is bound to a statement or stored in a configuration array. */
  datatype Value = VNull | VBool(b: bool) | VInt(i: int) | VFloat(f: real) | VStr(s: string)

  /** PHP's empty() on a string: only "" and "0" are empty. */
  predicate EmptyString(s: string) {
    s == "" || s == "0"
  }

  /** PHP's empty() on a scalar. */
  predicate EmptyValue(v: Value) {
    match v
    case VNull => true
    case VBool(b) => !b
    case VInt(i) => i == 0
    case VFloat(f) => f == 0.0
    case VStr(s) => EmptyString(s)
  }

  /** PHP's string conversion of a value that is neither an int nor a float. */
  function StringOf(v: Value): string
    requires !v.VInt? && !v.VFloat?
  {
    match v
    case VNull => ""
    case VBool(b) => if b then "1" else ""
    case VStr(s) => s
  }

  /** A non-empty sequence is its head followed by its tail. */
  lemma HeadTail<T>(s: seq<T>)
    requires s != []
    ensures [s[0]] + s[1..] == s
  {
  }

  /** Regrouping a concatenation, for proofs that build sequences step by step. */
  lemma ConcatAssoc<T>(a: seq<T>, b: seq<T>, c: seq<T>)
    ensures a + (b + c) == a + b + c
  {
  }

  // ---------------------------------------------------------------------------
  // implode / explode

  /** implode(sep, parts) */
  function Join(parts: seq<string>, sep: string): (r: string)
    ensures parts == [] ==> r == ""
    ensures |parts| == 1 ==> r == parts[0]
  {
    if parts == [] then ""
    else if |parts| == 1 then parts[0]
    else parts[0] + sep + Join(parts[1..], sep)
  }

  lemma JoinCons(p: string, parts: seq<string>, sep: string)
    requires parts != []
    ensures Join([p] + parts, sep) == p + sep + Join(parts, sep)
  {
    assert ([p] + parts)[1..] == parts;
  }

  lemma JoinThree(a: string, b: string, c: string, sep: string)
    ensures Join([a, b, c], sep) == a + sep + b + sep + c
  {
    assert [a, b, c][1..] == [b, c];
    assert [b, c][1..] == [c];
  }

  /** explode(sep, s) for a one-character separator. */
  function Split(s: string, sep: char): (parts: seq<string>)
    ensures |parts| >= 1
    ensures forall i :: 0 <= i < |parts| ==> sep !in parts[i]
    decreases |s|
  {
    if s == [] then [[]]
    else if s[0] == sep then [[]] + Split(s[1..], sep)
    else
      var rest := Split(s[1..], sep);
      [[s[0]] + rest[0]] + rest[1..]
  }

  /** Exploding and imploding again gives back the original string. */
  lemma {:induction false} SplitJoin(s: string, sep: char)
    ensures Join(Split(s, sep), [sep]) == s
    decreases |s|
  {
    if s == [] {
    } else if s[0] == sep {
      SplitJoin(s[1..], sep);
      JoinCons([], Split(s[1..], sep), [sep]);
    } else {
      var rest := Split(s[1..], sep);
      SplitJoin(s[1..], sep);
      if |rest| == 1 {
      } else {
        JoinCons(rest[0], rest[1..], [sep]);
        JoinCons([s[0]] + rest[0], rest[1..], [sep]);
        assert [rest[0]] + rest[1..] == rest;
      }
    }
  }

  /** Imploding pieces that hold no separator and exploding again gives back
      the pieces. */
  lemma {:induction false} SplitJoined(parts: seq<string>, sep: char)
    requires parts != []
    requires forall i :: 0 <= i < |parts| ==> sep !in parts[i]
    ensures Split(Join(parts, [sep]), sep) == parts
    decreases |parts|
  {
    if |parts| == 1 {
      SplitNoSep(parts[0], sep);
    } else {
      SplitJoined(parts[1..], sep);
      JoinCons(parts[0], parts[1..], [sep]);
      assert [parts[0]] + parts[1..] == parts;
      SplitAt(parts[0], Join(parts[1..], [sep]), sep);
    }
  }

  /** A string without the separator explodes into itself. */
  lemma {:induction false} SplitNoSep(s: string, sep: char)
    requires sep !in s
    ensures Split(s, sep) == [s]
    decreases |s|
  {
    if s != [] {
      SplitNoSep(s[1..], sep);
      assert [s[0]] + s[1..] == s;
    }
  }

  /** The first piece is the text before the first separator; the rest is the
      explosion of what follows it. */
  lemma {:induction false} SplitAt(a: string, b: string, sep: char)
    requires sep !in a
    ensures Split(a + [sep] + b, sep) == [a] + Split(b, sep)
    decreases |a|
  {
    if a == [] {
      assert a + [sep] + b == [sep] + b;
      assert ([sep] + b)[1..] == b;
    } else {
      var s := a + [sep] + b;
      assert s[0] == a[0];
      assert s[1..] == a[1..] + [sep] + b;
      SplitAt(a[1..], b, sep);
      assert [a[0]] + a[1..] == a;
    }
  }

  // ---------------------------------------------------------------------------
  // substr (PHP 8 semantics)

  /** The start offset substr uses once a negative offset is folded back. */
  function SubstrStart(s: string, start: int): (f: nat)
    requires start <= |s|
    ensures f <= |s|
  {
    if start >= 0 then start
    else if -start > |s| then 0
    else |s| + start
  }

  /** substr(s, start): everything from start on; "" when start is past the end. */
  function Substr(s: string, start: int): (r: string)
    ensures 0 <= start <= |s| ==> r == s[start..]
    ensures start > |s| ==> r == ""
  {
    if start > |s| then "" else s[SubstrStart(s, start)..]
  }

  /** substr(s, start, length); a negative length leaves that many characters off the end. */
  function SubstrLen(s: string, start: int, length: int): (r: string)
    ensures 0 <= start <= |s| && length < 0 && start <= |s| + length ==> r == s[start..|s| + length]
    ensures 0 <= start <= |s| && length < 0 && start > |s| + length ==> r == ""
  {
    if start > |s| then ""
    else
      var f := SubstrStart(s, start);
      if length < 0 then
        if -length > |s| - f then "" else s[f..|s| + length]
      else if length > |s| - f then s[f..]
      else s[f..f + length]
  }

  /** A string that holds the separator explodes into at least two pieces. */
  lemma {:induction false} SplitMany(s: string, sep: char)
    requires sep in s
    ensures |Split(s, sep)| >= 2
    decreases |s|
  {
    if s[0] != sep {
      SplitMany(s[1..], sep);
    }
  }

  // ---------------------------------------------------------------------------
  // str_replace

  /** str_replace(pat, rep, s): left-to-right, non-overlapping replacement. */
  function Replace(s: string, pat: string, rep: string): string
    decreases |s|
  {
    if pat == [] || |s| < |pat| then s
    else if s[..|pat|] == pat then rep + Replace(s[|pat|..], pat, rep)
    else [s[0]] + Replace(s[1..], pat, rep)
  }

  /** A subject that the search text cannot occur in is left alone. */
  lemma {:induction false} ReplaceAbsent(s: string, pat: string, rep: string)
    requires |pat| >= 1 && pat[0] !in s
    ensures Replace(s, pat, rep) == s
    decreases |s|
  {
    if |s| >= |pat| {
      assert s[..|pat|] != pat by { assert s[..|pat|][0] == s[0]; }
      ReplaceAbsent(s[1..], pat, rep);
      assert [s[0]] + s[1..] == s;
    }
  }

  /** A subject that is exactly the search text becomes the replacement. */
  lemma ReplaceWhole(pat: string, rep: string)
    requires pat != []
    ensures Replace(pat, pat, rep) == rep
  {
    assert pat[..|pat|] == pat;
    assert pat[|pat|..] == [];
    assert rep + [] == rep;
  }

  // ---------------------------------------------------------------------------
  // trim / rtrim

  /** The characters PHP's trim() removes by default. */
  predicate IsTrimmed(c: char) {
    c == ' ' || c == '\t' || c == '\n' || c == '\r' || c == '\0' || c == '\U{000B}'
  }

  function TrimLeft(s: string): (r: string)
    ensures |r| <= |s| && r == s[|s| - |r|..]
    ensures r == [] || !IsTrimmed(r[0])
    ensures forall i :: 0 <= i < |s| - |r| ==> IsTrimmed(s[i])
    decreases |s|
  {
    if s != [] && IsTrimmed(s[0]) then TrimLeft(s[1..]) else s
  }

  function TrimRight(s: string): (r: string)
    ensures |r| <= |s| && r == s[..|r|]
    ensures r == [] || !IsTrimmed(r[|r| - 1])
    ensures forall i :: |r| <= i < |s| ==> IsTrimmed(s[i])
    decreases |s|
  {
    if s != [] && IsTrimmed(s[|s| - 1]) then TrimRight(s[..|s| - 1]) else s
  }

  /** trim(s): strips PHP's default whitespace from both ends; the result
      has no such character at either end. */
  function Trim(s: string): (r: string)
    ensures r == [] || (!IsTrimmed(r[0]) && !IsTrimmed(r[|r| - 1]))
  {
    TrimRight(TrimLeft(s))
  }

  /** rtrim(s, chars): removes trailing characters of the given set. */
  function RTrim(s: string, chars: set<char>): (r: string)
    ensures |r| <= |s| && r == s[..|r|]
    ensures r == [] || r[|r| - 1] !in chars
    ensures forall i :: |r| <= i < |s| ==> s[i] in chars
    decreases |s|
  {
    if s != [] && s[|s| - 1] in chars then RTrim(s[..|s| - 1], chars) else s
  }

  /** rtrim with the same character set twice changes nothing the second time. */
  lemma RTrimIdempotent(s: string, chars: set<char>)
    ensures RTrim(RTrim(s, chars), chars) == RTrim(s, chars)
  {
  }

  // ---------------------------------------------------------------------------
  // strtolower (ASCII, as PHP 8 does it)

  function LowerChar(c: char): char {
    if 'A' <= c <= 'Z' then (c as int + 32) as char else c
  }

  function Lower(s: string): (r: string)
    ensures |r| == |s| && forall i :: 0 <= i < |s| ==> r[i] == LowerChar(s[i])
  {
    seq(|s|, i requires 0 <= i < |s| => LowerChar(s[i]))
  }

  // ---------------------------------------------------------------------------
  // integer to decimal string

  function DigitChar(d: nat): char
    requires d < 10
  {
    "0123456789"[d]
  }

  function DigitValue(c: char): int {
    c as int - '0' as int
  }

  predicate IsDigit(c: char) {
    '0' <= c <= '9'
  }

  /** The decimal digits of n, as PHP prints a non-negative int. */
  function NatToString(n: nat): (s: string)
    ensures |s| >= 1 && forall i :: 0 <= i < |s| ==> IsDigit(s[i])
    decreases n
  {
    if n < 10 then [DigitChar(n)] else NatToString(n / 10) + [DigitChar(n % 10)]
  }

  /** PHP's string conversion of an int. */
  function IntToString(i: int): string {
    if i < 0 then "-" + NatToString(-i) else NatToString(i)
  }

  /** The value of a string of decimal digits. */
  function ParseDigits(s: string): int {
    if s == [] then 0 else ParseDigits(s[..|s| - 1]) * 10 + DigitValue(s[|s| - 1])
  }

  /** Reading back the digits printed for n gives n. */
  lemma {:induction false} NatToStringRoundTrip(n: nat)
    ensures ParseDigits(NatToString(n)) == n
    decreases n
  {
    if n >= 10 {
      var s := NatToString(n);
      NatToStringRoundTrip(n / 10);
      assert s[..|s| - 1] == NatToString(n / 10);
    }
  }
}
