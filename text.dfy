/** The JavaScript string built-ins the script relies on, over `seq<char>`:
    `indexOf`/`lastIndexOf` of one character, `split` on one character,
    `substring(0, n)`, `startsWith`/`endsWith`/`includes`, the global
    character replacements the script writes as regular expressions, and
    the decimal rendering of integers in template literals. */
module Text {

  // ---------------------------------------------------------------------
  // Searching for one character
  // ---------------------------------------------------------------------

  /** A character absent from `t` and different from `x` is absent from
      `[x] + t`. */
  lemma NotInCons(x: char, t: string, c: char)
    requires c != x && c !in t
    ensures c !in [x] + t
  {
  }

  /** A character absent from `t` and different from `x` is absent from
      `t + [x]`. */
  lemma NotInSnoc(t: string, x: char, c: char)
    requires c != x && c !in t
    ensures c !in t + [x]
  {
  }

  /** `s.indexOf(c)`: the first position of `c`, or -1. */
  function IndexOf(s: string, c: char): (r: int)
    ensures -1 <= r < |s|
    ensures r == -1 <==> c !in s
    ensures 0 <= r ==> s[r] == c && c !in s[..r]
  {
    if |s| == 0 then -1
    else if s[0] == c then 0
    else
      var x, t := s[0], s[1..];
      var k := IndexOf(t, c);
      assert s == [x] + t;
      if k == -1 then
        NotInCons(x, t, c);
        -1
      else
        assert s[..k + 1] == [x] + t[..k];
        NotInCons(x, t[..k], c);
        k + 1
  }

  /** `s.lastIndexOf(c)`: the last position of `c`, or -1. */
  function LastIndexOf(s: string, c: char): (r: int)
    ensures -1 <= r < |s|
    ensures r == -1 <==> c !in s
    ensures 0 <= r ==> s[r] == c && c !in s[r + 1..]
  {
    if |s| == 0 then -1
    else if s[|s| - 1] == c then |s| - 1
    else
      var t, x := s[..|s| - 1], s[|s| - 1];
      var k := LastIndexOf(t, c);
      assert s == t + [x];
      if k == -1 then
        NotInSnoc(t, x, c);
        -1
      else
        assert s[k + 1..] == t[k + 1..] + [x];
        NotInSnoc(t[k + 1..], x, c);
        k
  }

  // ---------------------------------------------------------------------
  // split and its inverse
  // ---------------------------------------------------------------------

  /** `s.split(sep)` for a one-character separator: the pieces between the
      separators, in order; `""` splits into `[""]`. */
  function Split(s: string, sep: char): (parts: seq<string>)
    ensures |parts| >= 1
    decreases |s|
  {
    if |s| == 0 then [""]
    else
      var rest := Split(s[1..], sep);
      if s[0] == sep then [""] + rest
      else [[s[0]] + rest[0]] + rest[1..]
  }

  /** No piece of a split holds the separator. */
  lemma {:induction false} SplitPiecesHaveNoSeparator(s: string, sep: char)
    ensures forall i :: 0 <= i < |Split(s, sep)| ==> sep !in Split(s, sep)[i]
    decreases |s|
  {
    if |s| > 0 {
      SplitPiecesHaveNoSeparator(s[1..], sep);
      var rest := Split(s[1..], sep);
      assert sep !in rest[0];
      if s[0] != sep {
        assert sep !in [s[0]] + rest[0];
      }
    }
  }

  /** `parts.join(sep)`. */
  function Join(parts: seq<string>, sep: char): string
    requires |parts| >= 1
  {
    if |parts| == 1 then parts[0] else parts[0] + [sep] + Join(parts[1..], sep)
  }

  /** `Array.prototype.pop` on the result of a split: its last piece. */
  function Last(parts: seq<string>): string
    requires |parts| >= 1
  {
    parts[|parts| - 1]
  }

  lemma {:induction false} SplitWithoutSeparator(s: string, sep: char)
    requires sep !in s
    ensures Split(s, sep) == [s]
    decreases |s|
  {
    if |s| > 0 {
      SplitWithoutSeparator(s[1..], sep);
      assert [s[0]] + s[1..] == s;
    }
  }

  /** One step of `Split`: the first character either ends the first piece
      or joins it. */
  lemma SplitCons(x: char, t: string, sep: char)
    ensures Split([x] + t, sep) == ConsPieces(x, sep, Split(t, sep))
  {
    assert ([x] + t)[0] == x;
    assert ([x] + t)[1..] == t;
  }

  /** The pieces of `[x] + s`, given the pieces `rs` of `s`: `x` either is a
      separator and starts an empty piece, or joins the first piece. */
  function ConsPieces(x: char, sep: char, rs: seq<string>): seq<string>
    requires |rs| >= 1
  {
    if x == sep then [""] + rs else [[x] + rs[0]] + rs[1..]
  }

  /** Consing onto the pieces commutes with appending further pieces. */
  lemma ConsPiecesAppend(x: char, sep: char, ra: seq<string>, rb: seq<string>)
    requires |ra| >= 1
    ensures ConsPieces(x, sep, ra + rb) == ConsPieces(x, sep, ra) + rb
  {
    if x == sep {
      assert [""] + (ra + rb) == [""] + ra + rb;
    } else {
      assert (ra + rb)[0] == ra[0];
      assert (ra + rb)[1..] == ra[1..] + rb;
    }
  }

  /** Splitting around one separator splits each side independently. */
  lemma {:induction false} SplitAround(a: string, b: string, sep: char)
    ensures Split(a + [sep] + b, sep) == Split(a, sep) + Split(b, sep)
    decreases |a|
  {
    if |a| == 0 {
      assert a + [sep] + b == [sep] + b;
      SplitCons(sep, b, sep);
    } else {
      var x, a' := a[0], a[1..];
      var t := a' + [sep] + b;
      assert a == [x] + a';
      assert a + [sep] + b == [x] + t;
      SplitAround(a', b, sep);
      SplitCons(x, t, sep);
      SplitCons(x, a', sep);
      ConsPiecesAppend(x, sep, Split(a', sep), Split(b, sep));
    }
  }

  /** Three separator-free strings joined by two separators split back into
      the three. */
  lemma SplitThree(a: string, b: string, c: string, sep: char)
    requires sep !in a && sep !in b && sep !in c
    ensures Split(a + [sep] + (b + [sep] + c), sep) == [a, b, c]
  {
    SplitAround(a, b + [sep] + c, sep);
    SplitAround(b, c, sep);
    SplitWithoutSeparator(a, sep);
    SplitWithoutSeparator(b, sep);
    SplitWithoutSeparator(c, sep);
  }

  /** Joining the pieces of a split gives back the string. */
  lemma {:induction false} JoinSplit(s: string, sep: char)
    ensures Join(Split(s, sep), sep) == s
    decreases |s|
  {
    if |s| > 0 {
      var rest := Split(s[1..], sep);
      JoinSplit(s[1..], sep);
      if s[0] == sep {
        assert Split(s, sep)[1..] == rest;
      } else {
        var parts := Split(s, sep);
        if |rest| == 1 {
          assert parts == [[s[0]] + rest[0]];
        } else {
          assert parts[1..] == rest[1..];
          assert Join(rest, sep) == rest[0] + [sep] + Join(rest[1..], sep);
        }
      }
      assert [s[0]] + s[1..] == s;
    }
  }

  /** Splitting a join of separator-free pieces gives back the pieces. */
  lemma {:induction false} SplitJoin(parts: seq<string>, sep: char)
    requires |parts| >= 1
    requires forall i :: 0 <= i < |parts| ==> sep !in parts[i]
    ensures Split(Join(parts, sep), sep) == parts
    decreases |parts|
  {
    SplitWithoutSeparator(parts[0], sep);
    if |parts| > 1 {
      SplitJoin(parts[1..], sep);
      SplitAround(parts[0], Join(parts[1..], sep), sep);
      assert [parts[0]] + parts[1..] == parts;
    }
  }

  /** A split has one more piece than the string has separators. */
  lemma {:induction false} SplitCount(s: string, sep: char)
    ensures |Split(s, sep)| == multiset(s)[sep] + 1
    decreases |s|
  {
    if |s| > 0 {
      SplitCount(s[1..], sep);
      assert s == [s[0]] + s[1..];
      assert multiset(s) == multiset{s[0]} + multiset(s[1..]);
    }
  }

  /** A string is what comes before position `k`, the character there, and
      what comes after. */
  lemma Decompose(s: string, k: int)
    requires 0 <= k < |s|
    ensures s == s[..k] + [s[k]] + s[k + 1..]
  {
  }

  /** With no separator before it, the first separator ends the first
      piece. */
  lemma SplitAroundFirst(a: string, b: string, sep: char)
    requires sep !in a
    ensures Split(a + [sep] + b, sep)[0] == a
  {
    SplitAround(a, b, sep);
    SplitWithoutSeparator(a, sep);
  }

  /** `s.split(sep)[0]` is the text before the first separator. */
  lemma SplitFirst(s: string, sep: char)
    ensures Split(s, sep)[0] == if sep in s then s[..IndexOf(s, sep)] else s
  {
    if sep in s {
      var k := IndexOf(s, sep);
      Decompose(s, k);
      SplitAroundFirst(s[..k], s[k + 1..], sep);
    } else {
      SplitWithoutSeparator(s, sep);
    }
  }

  /** Everything before the last separator splits into all pieces but the
      last; the last piece is the text after it. */
  lemma SplitAtLast(s: string, sep: char)
    requires sep in s
    ensures Split(s, sep) == Split(s[..LastIndexOf(s, sep)], sep) + [s[LastIndexOf(s, sep) + 1..]]
  {
    var j := LastIndexOf(s, sep);
    Decompose(s, j);
    SplitAround(s[..j], s[j + 1..], sep);
    SplitWithoutSeparator(s[j + 1..], sep);
  }

  /** `s.split(sep).pop()` is the text after the last separator. */
  lemma SplitLast(s: string, sep: char)
    ensures Last(Split(s, sep)) == s[LastIndexOf(s, sep) + 1..]
  {
    if sep in s {
      SplitAtLast(s, sep);
    } else {
      SplitWithoutSeparator(s, sep);
    }
  }

  /** When a split has more than two pieces, its second-to-last piece is
      the text between the last two separators. */
  lemma SplitSecondToLast(s: string, sep: char)
    requires |Split(s, sep)| > 2
    ensures var j := LastIndexOf(s, sep);
            0 <= j &&
            Split(s, sep)[|Split(s, sep)| - 2] == s[LastIndexOf(s[..j], sep) + 1..j]
  {
    if sep !in s {
      SplitWithoutSeparator(s, sep);
    }
    var j := LastIndexOf(s, sep);
    SplitAtLast(s, sep);
    var front := Split(s[..j], sep);
    assert Split(s, sep)[|Split(s, sep)| - 2] == Last(front);
    SplitLast(s[..j], sep);
  }

  // ---------------------------------------------------------------------
  // Prefixes, suffixes and containment
  // ---------------------------------------------------------------------

  /** `s.substring(0, n)` for `n >= 0`: the longest prefix of `s` that is at
      most `n` characters long. */
  function Take(s: string, n: nat): (r: string)
    ensures |r| <= n && r <= s
    ensures |r| == if |s| <= n then |s| else n
  {
    if |s| <= n then s else s[..n]
  }

  /** `s.startsWith(p)`. */
  predicate StartsWith(s: string, p: string)
  {
    |p| <= |s| && s[..|p|] == p
  }

  /** `s.endsWith(p)`. */
  predicate EndsWith(s: string, p: string)
  {
    |p| <= |s| && s[|s| - |p|..] == p
  }

  /** `s.includes(sub)`. */
  predicate Includes(s: string, sub: string)
    decreases |s|
  {
    StartsWith(s, sub) || (|s| > 0 && Includes(s[1..], sub))
  }

  /** `sub` occurs in `s` starting at position `i`. */
  predicate OccursAt(s: string, sub: string, i: int)
  {
    0 <= i <= |s| - |sub| && s[i..i + |sub|] == sub
  }

  /** `Includes` holds exactly when `sub` occurs at some position of `s`. */
  lemma {:induction false} IncludesAt(s: string, sub: string)
    ensures Includes(s, sub) <==> exists i :: OccursAt(s, sub, i)
    decreases |s|
  {
    if Includes(s, sub) {
      if StartsWith(s, sub) {
        assert OccursAt(s, sub, 0);
      } else {
        IncludesAt(s[1..], sub);
        var i :| OccursAt(s[1..], sub, i);
        assert s[1..][i..i + |sub|] == s[i + 1..i + 1 + |sub|];
        assert OccursAt(s, sub, i + 1);
      }
    }
    if exists i :: OccursAt(s, sub, i) {
      var i :| OccursAt(s, sub, i);
      if i > 0 {
        assert s[1..][i - 1..i - 1 + |sub|] == s[i..i + |sub|];
        assert OccursAt(s[1..], sub, i - 1);
        IncludesAt(s[1..], sub);
      }
    }
  }

  // ---------------------------------------------------------------------
  // Global replacements
  // ---------------------------------------------------------------------

  /** `s.replace(/[...]/g, '')`: `s` with every character in `drop` deleted. */
  function RemoveChars(s: string, drop: set<char>): (r: string)
    ensures forall i :: 0 <= i < |r| ==> r[i] !in drop
    ensures forall x :: x !in drop ==> multiset(r)[x] == multiset(s)[x]
    ensures |r| <= |s|
    decreases |s|
  {
    if |s| == 0 then ""
    else
      var rest := RemoveChars(s[1..], drop);
      assert s == [s[0]] + s[1..];
      if s[0] in drop then rest else [s[0]] + rest
  }

  lemma {:induction false} RemoveCharsAppend(a: string, b: string, drop: set<char>)
    ensures RemoveChars(a + b, drop) == RemoveChars(a, drop) + RemoveChars(b, drop)
    decreases |a|
  {
    if |a| > 0 {
      assert (a + b)[0] == a[0];
      assert (a + b)[1..] == a[1..] + b;
      RemoveCharsAppend(a[1..], b, drop);
    } else {
      assert a + b == b;
    }
  }

  /** A string holding none of the dropped characters is left as it is. */
  lemma {:induction false} RemoveCharsNone(s: string, drop: set<char>)
    requires forall i :: 0 <= i < |s| ==> s[i] !in drop
    ensures RemoveChars(s, drop) == s
    decreases |s|
  {
    if |s| > 0 {
      RemoveCharsNone(s[1..], drop);
      assert [s[0]] + s[1..] == s;
    }
  }

  /** `s.replace(/a/g, b)` for single characters: every `a` becomes `b`. */
  function ReplaceChar(s: string, a: char, b: char): (r: string)
    ensures |r| == |s|
    ensures forall i :: 0 <= i < |s| ==> r[i] == (if s[i] == a then b else s[i])
    decreases |s|
  {
    if |s| == 0 then ""
    else [if s[0] == a then b else s[0]] + ReplaceChar(s[1..], a, b)
  }

  // ---------------------------------------------------------------------
  // Decimal rendering of numbers in template literals
  // ---------------------------------------------------------------------

  predicate IsDigit(c: char)
  {
    '0' <= c <= '9'
  }

  predicate AllDigits(s: string)
  {
    forall i :: 0 <= i < |s| ==> IsDigit(s[i])
  }

  function DigitChar(d: nat): (c: char)
    requires d < 10
    ensures IsDigit(c)
  {
    ('0' as int + d) as char
  }

  /** The decimal digits of `n`, most significant first, no leading zero. */
  function NatToString(n: nat): (s: string)
    ensures |s| >= 1 && AllDigits(s)
    ensures |s| > 1 ==> s[0] != '0'
    decreases n
  {
    if n < 10 then [DigitChar(n)]
    else NatToString(n / 10) + [DigitChar(n % 10)]
  }

  /** `${i}` for an integer number: a minus sign for negative values. */
  function IntToString(i: int): (s: string)
    ensures |s| >= 1
    ensures i >= 0 ==> AllDigits(s)
    ensures i < 0 ==> s[0] == '-' && AllDigits(s[1..])
  {
    if i < 0 then "-" + NatToString(-i) else NatToString(i)
  }

  /** The value of a string of decimal digits. */
  function ParseNat(s: string): nat
    requires |s| >= 1 && AllDigits(s)
    decreases |s|
  {
    var d := s[|s| - 1] as int - '0' as int;
    if |s| == 1 then d else 10 * ParseNat(s[..|s| - 1]) + d
  }

  /** Reading the decimal rendering of a number gives the number back. */
  lemma {:induction false} ParseNatToString(n: nat)
    ensures ParseNat(NatToString(n)) == n
    decreases n
  {
    if n >= 10 {
      ParseNatToString(n / 10);
      var s := NatToString(n);
      assert s[..|s| - 1] == NatToString(n / 10);
    }
  }

  /** The rendering of a number never holds `.` or `/`. */
  lemma IntToStringHasNoPathChars(i: int)
    ensures '.' !in IntToString(i) && '/' !in IntToString(i)
  {
    var t := NatToString(if i < 0 then -i else i);
    assert forall k :: 0 <= k < |t| ==> t[k] != '.' && t[k] != '/';
    if i < 0 {
      assert IntToString(i) == ['-'] + t;
    }
  }
}
