/**
 The few Python string operations the host-identity code relies on, with
 Python's own semantics: `str.strip()` and `str.strip('"')`, `str.lower()`,
 `str.split('=', 1)`, `str.split('.')[0]` and the built-in `int(str)`.
 */
module PyText {
  import opened Wrappers

  /** Python's `str.isspace()` character set: what `str.strip()` skips. */
  predicate IsSpace(c: char) {
    || c == ' ' || c == '\t' || c == '\n' || c == '\r'
    || c == '\U{0B}' || c == '\U{0C}'
    || ('\U{1C}' <= c <= '\U{1F}')
    || c == '\U{85}' || c == '\U{A0}' || c == '\U{1680}'
    || ('\U{2000}' <= c <= '\U{200A}')
    || c == '\U{2028}' || c == '\U{2029}' || c == '\U{202F}' || c == '\U{205F}' || c == '\U{3000}'
  }

  /**
   The whitespace `int()` skips around a number. Non-ASCII whitespace counts,
   but of the ASCII characters only tab, line feed, vertical tab, form feed,
   carriage return and space do: the separators U+001C to U+001F, which
   `str.strip()` removes, make `int()` fail.
   */
  predicate IsIntSpace(c: char) {
    IsSpace(c) && !('\U{1C}' <= c <= '\U{1F}')
  }

  /**
   The characters a trim removes: `strip()` removes whitespace, `strip('"')`
   double quotes, and `int()` its own narrower whitespace.
   */
  datatype CharClass = Whitespace | Quotes | IntWhitespace

  predicate Drops(cls: CharClass, c: char) {
    match cls
    case Whitespace => IsSpace(c)
    case Quotes => c == '"'
    case IntWhitespace => IsIntSpace(c)
  }

  predicate IsDigit(c: char) {
    '0' <= c <= '9'
  }

  /** Drops the leading characters of class `cls` (Python's `lstrip`). */
  function TrimStart(s: string, cls: CharClass): (r: string)
    ensures |r| <= |s|
    decreases |s|
  {
    if s != [] && Drops(cls, s[0]) then TrimStart(s[1..], cls) else s
  }

  /** Drops the trailing characters of class `cls` (Python's `rstrip`). */
  function TrimEnd(s: string, cls: CharClass): (r: string)
    ensures |r| <= |s|
    decreases |s|
  {
    if s != [] && Drops(cls, s[|s| - 1]) then TrimEnd(s[..|s| - 1], cls) else s
  }

  /** `lstrip` keeps a suffix, removes only characters of the class, and stops at the first other one. */
  lemma {:induction false} TrimStartFacts(s: string, cls: CharClass)
    ensures TrimStart(s, cls) == s[|s| - |TrimStart(s, cls)|..]
    ensures forall i :: 0 <= i < |s| - |TrimStart(s, cls)| ==> Drops(cls, s[i])
    ensures TrimStart(s, cls) == [] || !Drops(cls, TrimStart(s, cls)[0])
    decreases |s|
  {
    if s != [] && Drops(cls, s[0]) {
      TrimStartFacts(s[1..], cls);
      var r := TrimStart(s, cls);
      assert forall i :: 1 <= i < |s| - |r| ==> s[i] == s[1..][i - 1];
    }
  }

  /** `rstrip` keeps a prefix, removes only characters of the class, and stops at the last other one. */
  lemma {:induction false} TrimEndFacts(s: string, cls: CharClass)
    ensures TrimEnd(s, cls) == s[..|TrimEnd(s, cls)|]
    ensures forall i :: |TrimEnd(s, cls)| <= i < |s| ==> Drops(cls, s[i])
    ensures TrimEnd(s, cls) == [] || !Drops(cls, TrimEnd(s, cls)[|TrimEnd(s, cls)| - 1])
    decreases |s|
  {
    if s != [] && Drops(cls, s[|s| - 1]) {
      TrimEndFacts(s[..|s| - 1], cls);
      var r := TrimEnd(s, cls);
      assert forall i :: |r| <= i < |s| - 1 ==> s[i] == s[..|s| - 1][i];
    }
  }

  /** `r` is the slice of `s` starting at `a`, and everything around it is of class `cls`. */
  predicate TrimmedAt(s: string, r: string, a: int, cls: CharClass) {
    && 0 <= a && a + |r| <= |s|
    && r == s[a..a + |r|]
    && (forall i :: 0 <= i < a ==> Drops(cls, s[i]))
    && (forall i :: a + |r| <= i < |s| ==> Drops(cls, s[i]))
  }

  /**
   Python's `s.strip(chars)`: removes characters of the class from both ends
   only (`TrimFacts` states that the interior is untouched).
   */
  function Trim(s: string, cls: CharClass): (r: string)
    ensures r == [] || (!Drops(cls, r[0]) && !Drops(cls, r[|r| - 1]))
  {
    var head := TrimStart(s, cls);
    TrimStartFacts(s, cls);
    TrimEndFacts(head, cls);
    var r := TrimEnd(head, cls);
    assert r != [] ==> r[0] == head[0];
    r
  }

  /** How many characters `Trim` removes at the front of `s`. */
  function Leading(s: string, cls: CharClass): nat {
    |s| - |TrimStart(s, cls)|
  }

  /** The result of `Trim` is the slice of `s` that begins after the leading run of the class. */
  lemma TrimFacts(s: string, cls: CharClass)
    ensures TrimmedAt(s, Trim(s, cls), Leading(s, cls), cls)
  {
    var head := TrimStart(s, cls);
    TrimStartFacts(s, cls);
    TrimEndFacts(head, cls);
    var r := Trim(s, cls);
    var a := Leading(s, cls);
    assert forall i :: a + |r| <= i < |s| ==> s[i] == head[i - a];
  }

  /** Python's `s.strip()`: the result neither starts nor ends with whitespace. */
  function Strip(s: string): (r: string)
    ensures r == [] || (!IsSpace(r[0]) && !IsSpace(r[|r| - 1]))
  {
    Trim(s, Whitespace)
  }

  /** A character not of class `cls` survives trimming. */
  lemma TrimKeeps(s: string, cls: CharClass, c: char)
    requires c in s && !Drops(cls, c)
    ensures c in Trim(s, cls)
  {
    var r := Trim(s, cls);
    var a := Leading(s, cls);
    TrimFacts(s, cls);
    var k :| 0 <= k < |s| && s[k] == c;
    assert !(k < a) && !(a + |r| <= k);
    assert r[k - a] == s[k];
  }

  /** Trimming a string that neither starts nor ends with a dropped character changes nothing. */
  lemma TrimUnchanged(s: string, cls: CharClass)
    requires s == [] || (!Drops(cls, s[0]) && !Drops(cls, s[|s| - 1]))
    ensures Trim(s, cls) == s
  {
    var r := Trim(s, cls);
    var a := Leading(s, cls);
    TrimFacts(s, cls);
    if s != [] {
      assert a == 0;
      assert a + |r| == |s|;
    }
  }

  /** `Trim` has one answer: any slice framed by dropped characters and not itself framed by one. */
  lemma TrimUnique(s: string, cls: CharClass, r: string, a: int)
    requires TrimmedAt(s, r, a, cls)
    requires r == [] || (!Drops(cls, r[0]) && !Drops(cls, r[|r| - 1]))
    ensures Trim(s, cls) == r
  {
    var t := Trim(s, cls);
    var b := Leading(s, cls);
    TrimFacts(s, cls);
    if r == [] {
      assert forall i :: 0 <= i < |s| ==> Drops(cls, s[i]) by {
        forall i | 0 <= i < |s| ensures Drops(cls, s[i]) {
          assert i < a || a <= i;
        }
      }
    } else {
      assert r[0] == s[a] && r[|r| - 1] == s[a + |r| - 1];
      if t != [] {
        assert t[0] == s[b] && t[|t| - 1] == s[b + |t| - 1];
        assert a == b;
        assert a + |r| == b + |t|;
      }
    }
  }

  function LowerChar(c: char): char {
    if 'A' <= c <= 'Z' then (c as int - 'A' as int + 'a' as int) as char else c
  }

  /** Python's `str.lower()` on the ASCII letters. */
  function Lower(s: string): (r: string)
    ensures |r| == |s|
  {
    seq(|s|, i requires 0 <= i < |s| => LowerChar(s[i]))
  }

  /** Lowering twice is lowering once, so a lowered id compares like the original. */
  lemma LowerIdempotent(s: string)
    ensures Lower(Lower(s)) == Lower(s)
  {
    forall i | 0 <= i < |s|
      ensures Lower(Lower(s))[i] == Lower(s)[i]
    {
      var c := s[i];
      assert Lower(s)[i] == LowerChar(c);
    }
  }

  /** The position of the first occurrence of `c` in `s`. */
  function FirstIndex(s: string, c: char): (i: nat)
    requires c in s
    ensures i < |s| && s[i] == c && c !in s[..i]
  {
    if s[0] == c then 0
    else
      assert c in s[1..] by {
        var k :| 0 <= k < |s| && s[k] == c;
        assert s[1..][k - 1] == c;
      }
      var j := FirstIndex(s[1..], c);
      assert s[..j + 1] == [s[0]] + s[1..][..j];
      1 + j
  }

  /** Python's `s.split(sep, 1)` when `sep` occurs: the text before and after its first occurrence. */
  function SplitOnce(s: string, sep: char): (parts: (string, string))
    requires sep in s
    ensures |parts.0| < |s| && s[|parts.0|] == sep && sep !in parts.0
    ensures parts.0 == s[..|parts.0|] && parts.1 == s[|parts.0| + 1..]
  {
    var i := FirstIndex(s, sep);
    (s[..i], s[i + 1..])
  }

  /** Python's `s.split('.')[0]`: the text before the first '.', or all of `s`. */
  function BeforeFirstDot(s: string): (r: string)
    ensures |r| <= |s| && r == s[..|r|] && '.' !in r
    ensures |r| < |s| ==> s[|r|] == '.'
  {
    if '.' in s then SplitOnce(s, '.').0 else s
  }

  /** The part before the first '.' ignores whatever follows that '.'. */
  lemma BeforeFirstDotOfPrefix(a: string, rest: string)
    requires '.' !in a
    requires rest == [] || rest[0] == '.'
    ensures BeforeFirstDot(a + rest) == a
  {
    var s := a + rest;
    var r := BeforeFirstDot(s);
    assert s[..|a|] == a;
  }

  function DigitValue(c: char): nat {
    if IsDigit(c) then c as int - '0' as int else 0
  }

  /** The value of a string of decimal digits, most significant first. */
  function DigitsValue(d: string): nat {
    if d == [] then 0 else DigitsValue(d[..|d| - 1]) * 10 + DigitValue(d[|d| - 1])
  }

  function RemoveUnderscores(s: string): (r: string)
    ensures '_' !in r
  {
    if s == [] then []
    else (if s[0] == '_' then [] else [s[0]]) + RemoveUnderscores(s[1..])
  }

  /** What `int()` accepts after the sign: ASCII digits, with single underscores between digits. */
  predicate IsDigitGroup(b: string) {
    && |b| > 0 && IsDigit(b[0]) && IsDigit(b[|b| - 1])
    && (forall i :: 0 <= i < |b| ==> IsDigit(b[i]) || b[i] == '_')
    && (forall i :: 0 <= i < |b| - 1 && b[i] == '_' ==> IsDigit(b[i + 1]))
  }

  /**
   The most digits `int()` converts from a string (CPython's default limit
   since 3.11); a longer number fails. Underscores are not counted.
   */
  const MaxIntDigits := 4300

  function ParseUnsigned(b: string): Option<int> {
    if IsDigitGroup(b) && |RemoveUnderscores(b)| <= MaxIntDigits
    then Some(DigitsValue(RemoveUnderscores(b)))
    else None
  }

  /**
   Python's built-in `int(s)` in base 10: whitespace around the number, an
   optional sign and underscores between digits are accepted; anything else
   fails (Python raises `ValueError`, here `None`). What parses is a digit
   or a sign followed by digits, and ends in a digit.
   */
  function ParseInt(s: string): (r: Option<int>)
    ensures r.Some? ==> var t := Trim(s, IntWhitespace);
                        |t| > 0 && IsDigit(t[|t| - 1]) && (IsDigit(t[0]) || t[0] == '+' || t[0] == '-')
  {
    var t := Trim(s, IntWhitespace);
    if |t| > 0 && (t[0] == '+' || t[0] == '-') then
      match ParseUnsigned(t[1..])
      case Some(n) => Some(if t[0] == '-' then -n else n)
      case None => None
    else ParseUnsigned(t)
  }

  function DigitChar(d: nat): char
    requires d < 10
  {
    ('0' as int + d) as char
  }

  /** Python's `str(n)` for a natural number. */
  function NatDigits(n: nat): (r: string)
    ensures |r| > 0 && forall i :: 0 <= i < |r| ==> IsDigit(r[i])
  {
    if n < 10 then [DigitChar(n)] else NatDigits(n / 10) + [DigitChar(n % 10)]
  }

  function Magnitude(n: int): nat {
    if n < 0 then -n else n
  }

  /** The number of decimal digits of `n`, without its sign. */
  function DigitCount(n: int): nat {
    |NatDigits(Magnitude(n))|
  }

  /**
   Python's `str(n)` for an integer: a '-' exactly for a negative number,
   then `DigitCount(n)` decimal digits.
   */
  function DecimalString(n: int): (r: string)
    ensures |r| == DigitCount(n) + (if n < 0 then 1 else 0)
    ensures r[0] == '-' <==> n < 0
    ensures forall i :: (if n < 0 then 1 else 0) <= i < |r| ==> IsDigit(r[i])
  {
    if n < 0 then "-" + NatDigits(-n) else NatDigits(n)
  }

  lemma {:induction false} NatDigitsValue(n: nat)
    ensures DigitsValue(NatDigits(n)) == n
  {
    var d := NatDigits(n);
    if n >= 10 {
      NatDigitsValue(n / 10);
      assert d[..|d| - 1] == NatDigits(n / 10);
    }
  }

  lemma {:induction false} RemoveUnderscoresUnchanged(s: string)
    requires '_' !in s
    ensures RemoveUnderscores(s) == s
  {
    if s != [] {
      RemoveUnderscoresUnchanged(s[1..]);
      assert [s[0]] + s[1..] == s;
    }
  }

  /** The digits of a natural number read back as that number, unless there are too many. */
  lemma ParseUnsignedDigits(m: nat)
    ensures ParseUnsigned(NatDigits(m)) == if |NatDigits(m)| <= MaxIntDigits then Some(m) else None
  {
    var d := NatDigits(m);
    assert '_' !in d;
    assert IsDigitGroup(d);
    RemoveUnderscoresUnchanged(d);
    NatDigitsValue(m);
  }

  /**
   `int(str(n)) == n` for every integer of at most `MaxIntDigits` digits;
   a longer one is refused.
   */
  lemma ParseIntRoundTrip(n: int)
    ensures ParseInt(DecimalString(n)) == if DigitCount(n) <= MaxIntDigits then Some(n) else None
  {
    var s := DecimalString(n);
    var m: nat := Magnitude(n);
    var d := NatDigits(m);
    assert IsDigit(d[|d| - 1]);
    assert s[|s| - 1] == d[|d| - 1];
    assert !IsIntSpace(s[0]) by {
      assert s[0] == '-' || s[0] == d[0];
      assert IsDigit(d[0]);
    }
    TrimUnchanged(s, IntWhitespace);
    assert Trim(s, IntWhitespace) == s;
    ParseUnsignedDigits(m);
    if n < 0 {
      assert s[1..] == d;
    } else {
      assert IsDigit(s[0]);
    }
  }

  /** A string without any decimal digit (such as "unknown" or "Stream") never parses. */
  lemma NoDigitNoInt(s: string)
    requires forall i :: 0 <= i < |s| ==> !IsDigit(s[i])
    ensures ParseInt(s) == None
  {
    var t := Trim(s, IntWhitespace);
    var a := Leading(s, IntWhitespace);
    TrimFacts(s, IntWhitespace);
    assert forall i :: 0 <= i < |t| ==> !IsDigit(t[i]) by {
      forall i | 0 <= i < |t| ensures !IsDigit(t[i]) {
        assert t[i] == s[a + i];
      }
    }
    if |t| > 1 {
      assert t[1..][0] == t[1];
    }
  }

  /**
   `int()` does not skip the separators U+001C to U+001F, although
   `str.strip()` does: a value that strips to "7" can still fail to parse.
   */
  lemma IntKeepsSeparators()
    ensures Strip("\U{1C}7") == "7"
    ensures ParseInt("\U{1C}7") == None
    ensures ParseInt(" 7\n") == Some(7)
  {
    TrimUnique("\U{1C}7", Whitespace, "7", 1);
    TrimUnchanged("\U{1C}7", IntWhitespace);
    TrimUnique(" 7\n", IntWhitespace, "7", 1);
    assert DigitsValue("7") == 7 by {
      assert "7"[..0] == [];
    }
  }
}
