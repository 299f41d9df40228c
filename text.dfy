/** The JavaScript string operations the nodes rely on: `split(',')`, `trim()`
    and the decimal rendering of a number in a template string. */
module Text {

  /** The number of commas in `s`. */
  function Commas(s: string): nat
  {
    if s == "" then 0 else (if s[0] == ',' then 1 else 0) + Commas(s[1..])
  }

  /** The pieces joined back with commas. */
  function Join(pieces: seq<string>): string
    requires |pieces| > 0
  {
    if |pieces| == 1 then pieces[0] else pieces[0] + "," + Join(pieces[1..])
  }

  /** `s.split(',')`: the pieces between commas, in order; the empty string
      gives one empty piece. */
  function Split(s: string): (pieces: seq<string>)
    ensures |pieces| == Commas(s) + 1
    ensures forall k :: 0 <= k < |pieces| ==> ',' !in pieces[k]
    decreases |s|
  {
    if s == "" then [""]
    else
      var rest := Split(s[1..]);
      if s[0] == ',' then [""] + rest
      else [[s[0]] + rest[0]] + rest[1..]
  }

  /** Joining the pieces of a split gives the string back. */
  lemma {:induction false} JoinSplit(s: string)
    ensures Join(Split(s)) == s
    decreases |s|
  {
    if s != "" {
      var rest := Split(s[1..]);
      JoinSplit(s[1..]);
      if s[0] == ',' {
        assert Split(s) == [""] + rest;
        assert Join(Split(s)) == "" + "," + Join(rest);
      } else {
        var pieces := Split(s);
        assert pieces == [[s[0]] + rest[0]] + rest[1..];
        if |rest| == 1 {
          assert Join(pieces) == [s[0]] + rest[0];
        } else {
          assert pieces[1..] == rest[1..];
          assert Join(pieces) == [s[0]] + rest[0] + "," + Join(rest[1..]);
        }
        assert s == [s[0]] + s[1..];
      }
    }
  }

  /** Splitting a string that starts with a known character. */
  lemma SplitCons(c: char, s: string)
    ensures Split([c] + s) == if c == ',' then [""] + Split(s) else [[c] + Split(s)[0]] + Split(s)[1..]
  {
    assert ([c] + s)[1..] == s;
  }

  /** A non-empty first piece contributes its first character in front of the rest. */
  lemma JoinFirstChar(pieces: seq<string>)
    requires |pieces| > 0 && pieces[0] != ""
    ensures Join(pieces) == [pieces[0][0]] + Join([pieces[0][1..]] + pieces[1..])
  {
    var p := pieces[0];
    var tail := [p[1..]] + pieces[1..];
    assert p == [p[0]] + p[1..];
    if |pieces| == 1 {
      assert Join(tail) == p[1..];
    } else {
      var rest := Join(pieces[1..]);
      assert tail[1..] == pieces[1..];
      assert Join(tail) == p[1..] + "," + rest;
      assert Join(pieces) == p + "," + rest;
      assert p + "," + rest == [p[0]] + (p[1..] + "," + rest);
    }
  }

  /** Splitting comma-free pieces joined with commas gives the pieces back. */
  lemma {:induction false} SplitJoin(pieces: seq<string>)
    requires |pieces| > 0
    requires forall k :: 0 <= k < |pieces| ==> ',' !in pieces[k]
    ensures Split(Join(pieces)) == pieces
    decreases |pieces|, |pieces[0]|
  {
    var p := pieces[0];
    if p == "" {
      if |pieces| > 1 {
        SplitJoin(pieces[1..]);
        assert Join(pieces) == [','] + Join(pieces[1..]);
        SplitCons(',', Join(pieces[1..]));
        assert pieces == [""] + pieces[1..];
      }
    } else {
      var tail := [p[1..]] + pieces[1..];
      assert forall k :: 0 <= k < |tail| ==> ',' !in tail[k] by {
        assert forall c :: c in p[1..] ==> c in p;
      }
      SplitJoin(tail);
      JoinFirstChar(pieces);
      assert p[0] in p;
      SplitCons(p[0], Join(tail));
      assert p == [p[0]] + p[1..];
      assert [[p[0]] + p[1..]] + pieces[1..] == pieces;
    }
  }

  /** The characters `trim()` removes: ECMAScript WhiteSpace and LineTerminator. */
  const WhitespaceChars: set<char> := {
    '\t', '\U{000B}', '\U{000C}', ' ', '\U{00A0}', '\U{FEFF}', '\U{1680}',
    '\U{2000}', '\U{2001}', '\U{2002}', '\U{2003}', '\U{2004}', '\U{2005}',
    '\U{2006}', '\U{2007}', '\U{2008}', '\U{2009}', '\U{200A}',
    '\U{202F}', '\U{205F}', '\U{3000}', '\n', '\r', '\U{2028}', '\U{2029}'}

  predicate IsWhitespace(c: char)
  {
    c in WhitespaceChars
  }

  /** `s` without its leading whitespace. */
  function TrimStart(s: string): (r: string)
    ensures |r| <= |s| && r == s[|s| - |r|..]
    ensures forall k :: 0 <= k < |s| - |r| ==> IsWhitespace(s[k])
    ensures r == "" || !IsWhitespace(r[0])
    decreases |s|
  {
    if s != "" && IsWhitespace(s[0]) then TrimStart(s[1..]) else s
  }

  /** `s` without its trailing whitespace. */
  function TrimEnd(s: string): (r: string)
    ensures |r| <= |s| && r == s[..|r|]
    ensures forall k :: |r| <= k < |s| ==> IsWhitespace(s[k])
    ensures r == "" || !IsWhitespace(r[|r| - 1])
    decreases |s|
  {
    if s != "" && IsWhitespace(s[|s| - 1]) then TrimEnd(s[..|s| - 1]) else s
  }

  /** `s.trim()`: the part of `s` between its leading and trailing whitespace. */
  function Trim(s: string): (r: string)
    ensures r == "" || (!IsWhitespace(r[0]) && !IsWhitespace(r[|r| - 1]))
  {
    TrimEnd(TrimStart(s))
  }

  /** Trimming removes only whitespace, from the two ends, and keeps the rest in place. */
  lemma TrimIsInfix(s: string) returns (a: nat)
    ensures a + |Trim(s)| <= |s| && Trim(s) == s[a..a + |Trim(s)|]
    ensures forall k :: 0 <= k < a ==> IsWhitespace(s[k])
    ensures forall k :: a + |Trim(s)| <= k < |s| ==> IsWhitespace(s[k])
  {
    var t := TrimStart(s);
    a := |s| - |t|;
    var r := TrimEnd(t);
    SliceOfSuffix(s, a, |r|);
    forall k | a + |r| <= k < |s|
      ensures IsWhitespace(s[k])
    {
      TrailingOfSuffix(s, t, a, r, k);
    }
  }

  lemma SliceOfSuffix(s: string, a: nat, n: nat)
    requires a + n <= |s|
    ensures s[a..][..n] == s[a..a + n]
  {
  }

  lemma TrailingOfSuffix(s: string, t: string, a: nat, r: string, k: nat)
    requires a <= |s| && t == s[a..] && |r| <= |t| && a + |r| <= k < |s|
    requires forall j :: |r| <= j < |t| ==> IsWhitespace(t[j])
    ensures IsWhitespace(s[k])
  {
    assert s[k] == t[k - a];
  }

  /** A character absent from `s` is absent from its trimmed form. */
  lemma TrimKeepsOut(s: string, c: char)
    requires c !in s
    ensures c !in Trim(s)
  {
    var a := TrimIsInfix(s);
    var r := Trim(s);
    forall j | 0 <= j < |r|
      ensures r[j] != c
    {
      assert r[j] == s[a + j];
    }
  }

  /** Pieces free of `c` stay free of it when trimmed, and trimming them is final. */
  lemma TrimEachKeepsOut(pieces: seq<string>, c: char)
    requires forall k :: 0 <= k < |pieces| ==> c !in pieces[k]
    ensures forall k :: 0 <= k < |pieces| ==> c !in Trim(pieces[k]) && Trim(Trim(pieces[k])) == Trim(pieces[k])
  {
    forall k | 0 <= k < |pieces|
      ensures c !in Trim(pieces[k]) && Trim(Trim(pieces[k])) == Trim(pieces[k])
    {
      TrimKeepsOut(pieces[k], c);
      TrimIdempotent(pieces[k]);
    }
  }

  /** Trimming twice is trimming once. */
  lemma TrimIdempotent(s: string)
    ensures Trim(Trim(s)) == Trim(s)
  {
    var r := Trim(s);
    assert TrimStart(r) == r;
  }

  function DigitChar(d: nat): char
    requires d < 10
  {
    "0123456789"[d]
  }

  function DigitValue(c: char): nat
  {
    if '0' <= c <= '9' then (c as int - '0' as int) as nat else 0
  }

  predicate IsDigit(c: char)
  {
    '0' <= c <= '9'
  }

  /** The decimal rendering of `n`, as `${n}` gives it for a whole number. */
  function Decimal(n: nat): (r: string)
    ensures |r| > 0 && forall k :: 0 <= k < |r| ==> IsDigit(r[k])
    ensures r[0] == '0' ==> n == 0
    decreases n
  {
    if n < 10 then [DigitChar(n)] else Decimal(n / 10) + [DigitChar(n % 10)]
  }

  /** The number a string of digits denotes. */
  function DecimalValue(s: string): nat
    decreases |s|
  {
    if s == "" then 0 else DecimalValue(s[..|s| - 1]) * 10 + DigitValue(s[|s| - 1])
  }

  /** Reading the rendering back gives the number. */
  lemma {:induction false} DecimalRoundTrip(n: nat)
    ensures DecimalValue(Decimal(n)) == n
    decreases n
  {
    if n >= 10 {
      DecimalRoundTrip(n / 10);
      var r := Decimal(n);
      assert r[..|r| - 1] == Decimal(n / 10);
    }
  }
}
