/** The Python string operations the FEN codec relies on: `str.split()` on
    whitespace, `str.split(sep)` on one character, `" ".join`, `str(n)` for
    integers and `int(s)` on decimal text. */
module Text {
  import opened ChessTypes

  /** The characters Python 2's `str.split()` treats as separators: space,
      tab, line feed, vertical tab, form feed and carriage return. */
  predicate IsWs(c: char)
  {
    c == ' ' || c == '\t' || c == '\n' || c == '\r' || c as int == 11 || c as int == 12
  }

  predicate NoWs(t: string)
  {
    forall k :: 0 <= k < |t| ==> !IsWs(t[k])
  }

  /** The longest prefix of s without whitespace. */
  function Word(s: string): (w: string)
    ensures |w| <= |s| && w == s[..|w|] && NoWs(w)
    ensures |w| < |s| ==> IsWs(s[|w|])
    decreases |s|
  {
    if s == [] || IsWs(s[0]) then [] else [s[0]] + Word(s[1..])
  }

  /** `s.split()`: the maximal runs of non-whitespace characters, in order. */
  function SplitWs(s: string): (r: seq<string>)
    ensures forall k :: 0 <= k < |r| ==> r[k] != [] && NoWs(r[k])
    decreases |s|
  {
    if s == [] then []
    else if IsWs(s[0]) then SplitWs(s[1..])
    else
      var w := Word(s);
      [w] + SplitWs(s[|w|..])
  }

  /** `" ".join(ts)`. */
  function JoinSpaces(ts: seq<string>): string
  {
    if |ts| == 0 then []
    else if |ts| == 1 then ts[0]
    else ts[0] + " " + JoinSpaces(ts[1..])
  }

  lemma JoinSpacesCons(t: string, ts: seq<string>)
    requires ts != []
    ensures JoinSpaces([t] + ts) == t + " " + JoinSpaces(ts)
  {
    assert ([t] + ts)[1..] == ts;
  }

  lemma WordOfToken(t: string, rest: string)
    requires NoWs(t)
    requires rest == [] || IsWs(rest[0])
    ensures Word(t + rest) == t
    decreases |t|
  {
    if t != [] {
      assert (t + rest)[1..] == t[1..] + rest;
      WordOfToken(t[1..], rest);
    }
  }

  /** Splitting the space-joined tokens gives the tokens back, provided each
      token is non-empty and free of whitespace. */
  lemma {:induction false} SplitJoinSpaces(ts: seq<string>)
    requires forall k :: 0 <= k < |ts| ==> ts[k] != [] && NoWs(ts[k])
    ensures SplitWs(JoinSpaces(ts)) == ts
    decreases |ts|
  {
    if |ts| == 1 {
      WordOfToken(ts[0], []);
      assert ts[0] + [] == ts[0];
      assert JoinSpaces(ts)[|ts[0]|..] == [];
    } else if |ts| > 1 {
      var s := JoinSpaces(ts);
      var tail := JoinSpaces(ts[1..]);
      assert s == ts[0] + (" " + tail);
      WordOfToken(ts[0], " " + tail);
      assert s[|ts[0]|..] == " " + tail;
      assert (" " + tail)[1..] == tail;
      SplitJoinSpaces(ts[1..]);
      assert [ts[0]] + ts[1..] == ts;
    }
  }

  /** `s.split(sep)`: the pieces between occurrences of sep, empty ones included. */
  function SplitOn(s: string, sep: char): (r: seq<string>)
    ensures |r| >= 1
    ensures forall k :: 0 <= k < |r| ==> sep !in r[k]
    decreases |s|
  {
    if s == [] then [[]]
    else
      var rest := SplitOn(s[1..], sep);
      if s[0] == sep then [[]] + rest
      else [[s[0]] + rest[0]] + rest[1..]
  }

  /** `sep.join(parts)`. */
  function JoinWith(parts: seq<string>, sep: char): string
    requires |parts| >= 1
  {
    if |parts| == 1 then parts[0] else parts[0] + [sep] + JoinWith(parts[1..], sep)
  }

  /** A join of two or more parts: the first, the separator, the join of
      the rest. */
  lemma JoinFirst(parts: seq<string>, sep: char)
    requires |parts| >= 2
    ensures JoinWith(parts, sep) == parts[0] + ([sep] + JoinWith(parts[1..], sep))
  {
  }

  /** A join of two or more parts: the join of all but the last, the
      separator, the last. */
  lemma {:induction false} JoinLast(parts: seq<string>, sep: char)
    requires |parts| >= 2
    ensures JoinWith(parts, sep) == JoinWith(parts[..|parts| - 1], sep) + [sep] + parts[|parts| - 1]
    decreases |parts|
  {
    var n := |parts|;
    if n == 2 {
      assert parts[1..] == [parts[1]];
      assert parts[..1] == [parts[0]];
    } else {
      JoinLast(parts[1..], sep);
      assert parts[1..][..n - 2] == parts[..n - 1][1..];
      assert JoinWith(parts[..n - 1], sep) == parts[0] + [sep] + JoinWith(parts[..n - 1][1..], sep);
    }
  }

  /** Extending a joined prefix of the parts by the next part. */
  lemma JoinPrefix(parts: seq<string>, k: int, sep: char)
    requires 1 <= k < |parts|
    ensures JoinWith(parts[..k + 1], sep) == JoinWith(parts[..k], sep) + [sep] + parts[k]
  {
    JoinLast(parts[..k + 1], sep);
    assert parts[..k + 1][..k] == parts[..k];
  }

  /** Joining the pieces of a split restores the string. */
  lemma {:induction false} JoinSplit(s: string, sep: char)
    ensures JoinWith(SplitOn(s, sep), sep) == s
    decreases |s|
  {
    if s != [] {
      var rest := SplitOn(s[1..], sep);
      JoinSplit(s[1..], sep);
      if s[0] == sep {
        assert SplitOn(s, sep)[1..] == rest;
      } else {
        var r := SplitOn(s, sep);
        if |rest| == 1 {
          assert r == [[s[0]] + rest[0]];
        } else {
          assert r[1..] == rest[1..];
          assert JoinWith(rest, sep) == rest[0] + [sep] + JoinWith(rest[1..], sep);
        }
      }
    }
  }

  lemma {:induction false} SplitOnPrefix(p: string, tail: string, sep: char)
    requires sep !in p
    ensures SplitOn(p + tail, sep) == [p + SplitOn(tail, sep)[0]] + SplitOn(tail, sep)[1..]
    decreases |p|
  {
    if p != [] {
      assert (p + tail)[1..] == p[1..] + tail;
      SplitOnPrefix(p[1..], tail, sep);
      assert [p[0]] + (p[1..] + SplitOn(tail, sep)[0]) == p + SplitOn(tail, sep)[0];
    } else {
      var r := SplitOn(tail, sep);
      assert p + tail == tail && p + r[0] == r[0];
      assert [r[0]] + r[1..] == r;
    }
  }

  /** Splitting joined pieces gives the pieces back when none contains sep. */
  lemma {:induction false} SplitJoin(parts: seq<string>, sep: char)
    requires |parts| >= 1
    requires forall k :: 0 <= k < |parts| ==> sep !in parts[k]
    ensures SplitOn(JoinWith(parts, sep), sep) == parts
    decreases |parts|
  {
    if |parts| == 1 {
      SplitOnPrefix(parts[0], [], sep);
      assert parts[0] + [] == parts[0];
    } else {
      var tail := [sep] + JoinWith(parts[1..], sep);
      assert JoinWith(parts, sep) == parts[0] + tail;
      SplitOnPrefix(parts[0], tail, sep);
      assert tail[1..] == JoinWith(parts[1..], sep);
      SplitJoin(parts[1..], sep);
      assert SplitOn(tail, sep) == [[]] + parts[1..];
      assert parts[0] + [] == parts[0];
      assert [parts[0]] + parts[1..] == parts;
    }
  }

  // ---------------------------------------------------------------------
  // Decimal numbers

  predicate IsDigit(c: char) { '0' <= c <= '9' }

  predicate AllDigits(t: string)
  {
    forall k :: 0 <= k < |t| ==> IsDigit(t[k])
  }

  function DigitValue(c: char): (d: int)
    requires IsDigit(c)
    ensures 0 <= d < 10
  {
    c as int - '0' as int
  }

  function DigitChar(d: int): (c: char)
    requires 0 <= d < 10
    ensures IsDigit(c) && DigitValue(c) == d
  {
    ('0' as int + d) as char
  }

  /** `str(n)` for a non-negative integer. */
  function NatStr(n: nat): (s: string)
    ensures |s| >= 1 && AllDigits(s)
  {
    if n < 10 then [DigitChar(n)] else NatStr(n / 10) + [DigitChar(n % 10)]
  }

  /** `str(i)` for any integer. */
  function IntStr(i: int): (s: string)
    ensures |s| >= 1 && NoWs(s)
  {
    if i < 0 then "-" + NatStr(-i) else NatStr(i)
  }

  /** The value of a string of decimal digits. */
  function DigitsValue(t: string): nat
    requires AllDigits(t)
  {
    if t == [] then 0 else DigitsValue(t[..|t| - 1]) * 10 + DigitValue(t[|t| - 1])
  }

  lemma {:induction false} NatStrValue(n: nat)
    ensures DigitsValue(NatStr(n)) == n
  {
    if n >= 10 {
      var s := NatStr(n);
      assert s[..|s| - 1] == NatStr(n / 10);
      NatStrValue(n / 10);
    }
  }

  /** `int(t)` on a token: an optional sign followed by decimal digits;
      anything else raises ValueError, written here as None. */
  function ParseInt(t: string): (r: Option<int>)
    ensures r.Some? ==> |t| >= 1
  {
    if |t| >= 1 && (t[0] == '+' || t[0] == '-') then
      var d := t[1..];
      if d != [] && AllDigits(d) then
        var v: int := DigitsValue(d);
        Some(if t[0] == '-' then -v else v)
      else None
    else if t != [] && AllDigits(t) then Some(DigitsValue(t))
    else None
  }

  /** `int(str(i)) == i`. */
  lemma ParseIntStr(i: int)
    ensures ParseInt(IntStr(i)) == Some(i)
  {
    var s := IntStr(i);
    if i < 0 {
      NatStrValue(-i);
      assert s[0] == '-' && s[1..] == NatStr(-i);
    } else {
      NatStrValue(i);
      assert IsDigit(s[0]);
    }
  }

  /** `str` is injective on integers. */
  lemma IntStrInjective(i: int, j: int)
    ensures IntStr(i) == IntStr(j) <==> i == j
  {
    ParseIntStr(i);
    ParseIntStr(j);
  }
}
