/**
 * The few .NET string operations the generator relies on, each stated as a
 * function over `seq<char>` together with the property that makes it usable:
 * `ToLowerInvariant` and `OrdinalIgnoreCase` (ASCII letters), `char.IsWhiteSpace`,
 * `TrimEnd()`, `string.Join`, `string.Split(string[], None)`,
 * `StringBuilder.AppendLine` (one "\n" per line) and `long.ToString()`.
 */
module Text {

  // ---------------------------------------------------------------- letters

  predicate IsUpper(c: char)
  {
    'A' <= c <= 'Z'
  }

  function LowerChar(c: char): char
  {
    if IsUpper(c) then (c as int + 32) as char else c
  }

  /** `ToLowerInvariant`, restricted to the ASCII letters. */
  function Lower(s: string): string
  {
    seq(|s|, i requires 0 <= i < |s| => LowerChar(s[i]))
  }

  /** Lower-casing keeps the length, leaves no capital letter and changes nothing else. */
  lemma LowerLetters(s: string)
    ensures |Lower(s)| == |s|
    ensures forall i :: 0 <= i < |s| ==> !IsUpper(Lower(s)[i])
    ensures forall i :: 0 <= i < |s| && !IsUpper(s[i]) ==> Lower(s)[i] == s[i]
    ensures forall i :: 0 <= i < |s| && IsUpper(s[i]) ==> Lower(s)[i] as int == s[i] as int + 32
  {
  }

  /** Lower-casing twice is lower-casing once, and a string equals its lower case ignoring case. */
  lemma LowerIdempotent(s: string)
    ensures Lower(Lower(s)) == Lower(s)
    ensures EqualsIgnoreCase(Lower(s), s)
  {
    LowerLetters(s);
    LowerLetters(Lower(s));
  }

  /** `a.Equals(b, StringComparison.OrdinalIgnoreCase)`, restricted to ASCII letters. */
  predicate EqualsIgnoreCase(a: string, b: string)
  {
    Lower(a) == Lower(b)
  }

  // ------------------------------------------------------------- whitespace

  /** `char.IsWhiteSpace`: the Unicode separators plus U+0009..U+000D and U+0085. */
  predicate IsWhiteSpace(c: char)
  {
    c == ' ' || ('\t' <= c <= '\r') || c == '\U{85}' || c == '\U{A0}' || c == '\U{1680}'
    || ('\U{2000}' <= c <= '\U{200A}') || c == '\U{2028}' || c == '\U{2029}'
    || c == '\U{202F}' || c == '\U{205F}' || c == '\U{3000}'
  }

  /** `string.IsNullOrWhiteSpace` on a non-null string. */
  predicate IsNullOrWhiteSpace(s: string)
  {
    forall i | 0 <= i < |s| :: IsWhiteSpace(s[i])
  }

  /** `s.TrimEnd()`: drops whitespace from the end of `s`. */
  function TrimEnd(s: string): string
  {
    if s != [] && IsWhiteSpace(s[|s| - 1]) then TrimEnd(s[..|s| - 1]) else s
  }

  /** `TrimEnd` keeps the longest prefix of `s` that does not end in whitespace. */
  lemma {:induction false} TrimEndTrims(s: string)
    ensures TrimEnd(s) <= s
    ensures forall i :: |TrimEnd(s)| <= i < |s| ==> IsWhiteSpace(s[i])
    ensures TrimEnd(s) == [] || !IsWhiteSpace(TrimEnd(s)[|TrimEnd(s)| - 1])
  {
    if s != [] && IsWhiteSpace(s[|s| - 1]) {
      TrimEndTrims(s[..|s| - 1]);
    }
  }

  /** A character that is not whitespace survives `TrimEnd`, with everything before it. */
  lemma TrimEndKeeps(s: string, k: nat)
    requires k < |s| && !IsWhiteSpace(s[k])
    ensures s[..k + 1] <= TrimEnd(s)
  {
    TrimEndTrims(s);
  }

  /** Trimming text that ends in a non-whitespace character and a newline removes the newline only. */
  lemma TrimEndLastLine(s: string)
    requires s != [] && !IsWhiteSpace(s[|s| - 1])
    ensures TrimEnd(s + "\n") == s
  {
    assert (s + "\n")[..|s|] == s;
  }

  // ---------------------------------------------------------- join / split

  lemma AppendAssoc<T>(a: seq<T>, b: seq<T>, c: seq<T>)
    ensures (a + b) + c == a + (b + c)
  {
  }

  lemma TakeOfAppend(a: string, b: string, n: nat)
    requires n <= |a|
    ensures (a + b)[..n] == a[..n]
  {
  }

  /** `s.EndsWith(t)` (ordinal). */
  predicate EndsWith(s: string, t: string)
  {
    |t| <= |s| && s[|s| - |t|..] == t
  }

  /** `string.Join(sep, xs)`. */
  function Join(xs: seq<string>, sep: string): string
  {
    if |xs| == 0 then "" else if |xs| == 1 then xs[0] else xs[0] + sep + Join(xs[1..], sep)
  }

  /** Items and a separator without newlines join into a single line. */
  lemma {:induction false} JoinSingleLine(xs: seq<string>, sep: string)
    requires '\n' !in sep
    requires forall k :: 0 <= k < |xs| ==> '\n' !in xs[k]
    ensures '\n' !in Join(xs, sep)
  {
    if |xs| > 1 {
      JoinSingleLine(xs[1..], sep);
    }
  }

  /** Joining one or two items. */
  lemma JoinShort(xs: seq<string>, sep: string)
    requires 1 <= |xs| <= 2
    ensures |xs| == 1 ==> Join(xs, sep) == xs[0]
    ensures |xs| == 2 ==> Join(xs, sep) == xs[0] + sep + xs[1]
  {
    if |xs| == 2 {
      assert xs[1..] == [xs[1]];
    }
  }

  /** `sep` occurs in `s` starting at position `p`. */
  predicate OccursAt(s: string, sep: string, p: nat)
  {
    p + |sep| <= |s| && s[p..p + |sep|] == sep
  }

  /** Some occurrence of `sep` lies wholly inside `s`. */
  ghost predicate Contains(s: string, sep: string)
  {
    exists p: nat :: OccursAt(s, sep, p)
  }

  /**
   * `s.Split(new[] { sep }, StringSplitOptions.None)`: scanning from the left,
   * each non-overlapping occurrence of `sep` ends one part and starts the next.
   */
  function Split(s: string, sep: string): (parts: seq<string>)
    requires sep != []
    ensures |parts| >= 1
    decreases |s|
  {
    if |s| < |sep| then [s]
    else if s[..|sep|] == sep then [""] + Split(s[|sep|..], sep)
    else
      var rest := Split(s[1..], sep);
      [[s[0]] + rest[0]] + rest[1..]
  }

  /** The first part is a prefix of the split string. */
  lemma {:induction false} SplitFirstPrefix(s: string, sep: string)
    requires sep != []
    ensures Split(s, sep)[0] <= s
    decreases |s|
  {
    if |s| >= |sep| && s[..|sep|] != sep {
      SplitFirstPrefix(s[1..], sep);
      var rest := Split(s[1..], sep);
      assert Split(s, sep)[0] == [s[0]] + rest[0];
      assert s == [s[0]] + s[1..];
    }
  }

  /** No part that `Split` returns still contains the separator. */
  lemma {:induction false} SplitPartsAvoidSeparator(s: string, sep: string)
    requires sep != []
    ensures forall k :: 0 <= k < |Split(s, sep)| ==> !Contains(Split(s, sep)[k], sep)
    decreases |s|
  {
    if |s| < |sep| {
    } else if s[..|sep|] == sep {
      SplitPartsAvoidSeparator(s[|sep|..], sep);
    } else {
      var rest := Split(s[1..], sep);
      SplitPartsAvoidSeparator(s[1..], sep);
      SplitFirstPrefix(s[1..], sep);
      var first := [s[0]] + rest[0];
      assert first <= s;
      if Contains(first, sep) {
        var p: nat :| OccursAt(first, sep, p);
        assert p != 0;
        assert rest[0][p - 1..p - 1 + |sep|] == first[p..p + |sep|];
        assert OccursAt(rest[0], sep, p - 1);
        assert false;
      }
    }
  }

  /** A string without the separator's first character is a single part. */
  lemma {:induction false} SplitWithoutSeparator(x: string, sep: string)
    requires sep != [] && sep[0] !in x
    ensures Split(x, sep) == [x]
    decreases |x|
  {
    if |x| >= |sep| {
      assert x[..|sep|][0] == x[0];
      SplitWithoutSeparator(x[1..], sep);
      assert [x[0]] + x[1..] == x;
    }
  }

  /** A separator after a part that cannot start one ends exactly that part. */
  lemma {:induction false} SplitAfterPart(x: string, sep: string, rest: string)
    requires sep != [] && sep[0] !in x
    ensures Split(x + sep + rest, sep) == [x] + Split(rest, sep)
    decreases |x|
  {
    var s := x + sep + rest;
    if x == [] {
      assert s == sep + rest;
      assert s[..|sep|] == sep && s[|sep|..] == rest;
    } else {
      assert s[..|sep|][0] == x[0];
      assert s[1..] == x[1..] + sep + rest;
      SplitAfterPart(x[1..], sep, rest);
      assert [x[0]] + x[1..] == x;
    }
  }

  /** A string in which the separator never occurs is a single part. */
  lemma {:induction false} SplitWithoutOccurrence(s: string, sep: string)
    requires sep != [] && !Contains(s, sep)
    ensures Split(s, sep) == [s]
    decreases |s|
  {
    if |s| < |sep| {
    } else if s[..|sep|] == sep {
      assert OccursAt(s, sep, 0);
      assert false;
    } else {
      if Contains(s[1..], sep) {
        var p: nat :| OccursAt(s[1..], sep, p);
        assert s[p + 1..p + 1 + |sep|] == s[1..][p..p + |sep|];
        assert OccursAt(s, sep, p + 1);
        assert false;
      }
      SplitWithoutOccurrence(s[1..], sep);
      assert [s[0]] + s[1..] == s;
    }
  }

  /** Prepending a character to the first item prepends it to the joined string. */
  lemma JoinConsFirst(c: char, xs: seq<string>, sep: string)
    requires |xs| >= 1
    ensures Join([[c] + xs[0]] + xs[1..], sep) == [c] + Join(xs, sep)
  {
    var ys := [[c] + xs[0]] + xs[1..];
    assert ys[1..] == xs[1..];
    if |xs| > 1 {
      assert Join(ys, sep) == ([c] + xs[0]) + sep + Join(xs[1..], sep);
      assert Join(xs, sep) == xs[0] + sep + Join(xs[1..], sep);
    }
  }

  /** `Join` undoes `Split`: joining the parts with the separator restores the string. */
  lemma {:induction false} JoinSplit(s: string, sep: string)
    requires sep != []
    ensures Join(Split(s, sep), sep) == s
    decreases |s|
  {
    if |s| < |sep| {
    } else if s[..|sep|] == sep {
      var rest := Split(s[|sep|..], sep);
      JoinSplit(s[|sep|..], sep);
      assert Split(s, sep) == [""] + rest;
      assert ([""] + rest)[1..] == rest;
      assert Join([""] + rest, sep) == "" + sep + Join(rest, sep);
      assert s == sep + s[|sep|..];
    } else {
      var rest := Split(s[1..], sep);
      JoinSplit(s[1..], sep);
      assert Split(s, sep) == [[s[0]] + rest[0]] + rest[1..];
      JoinConsFirst(s[0], rest, sep);
      assert [s[0]] + s[1..] == s;
    }
  }

  /** A joined string ends with its last item. */
  lemma {:induction false} JoinEndsWithLast(xs: seq<string>, sep: string)
    requires |xs| >= 1
    ensures EndsWith(Join(xs, sep), xs[|xs| - 1])
  {
    if |xs| > 1 {
      JoinEndsWithLast(xs[1..], sep);
      var tail := Join(xs[1..], sep);
      var whole := xs[0] + sep + tail;
      assert whole[|whole| - |tail|..] == tail;
      assert tail[|tail| - |xs[|xs| - 1]|..] == whole[|whole| - |xs[|xs| - 1]|..];
    }
  }

  /** `Split` undoes `Join` when no item contains the separator's first character. */
  lemma {:induction false} SplitJoin(xs: seq<string>, sep: string)
    requires sep != [] && |xs| >= 1
    requires forall k :: 0 <= k < |xs| ==> sep[0] !in xs[k]
    ensures Split(Join(xs, sep), sep) == xs
  {
    if |xs| == 1 {
      SplitWithoutSeparator(xs[0], sep);
    } else {
      SplitJoin(xs[1..], sep);
      SplitAfterPart(xs[0], sep, Join(xs[1..], sep));
      assert [xs[0]] + xs[1..] == xs;
    }
  }

  // ------------------------------------------------------------------ lines

  /** The text a `StringBuilder` holds after `AppendLine(l)` for each `l` in turn. */
  function Unlines(lines: seq<string>): string
  {
    if lines == [] then "" else Unlines(lines[..|lines| - 1]) + lines[|lines| - 1] + "\n"
  }

  lemma UnlinesSnoc(lines: seq<string>, line: string)
    ensures Unlines(lines + [line]) == Unlines(lines) + line + "\n"
  {
    assert (lines + [line])[..|lines|] == lines;
  }

  lemma UnlinesOne(line: string)
    ensures Unlines([line]) == line + "\n"
  {
    assert [line][..0] == [];
    assert "" + line == line;
  }

  /** Appending one more line to text that already ends in `lines`. */
  lemma AppendLine(prefix: string, lines: seq<string>, line: string)
    ensures (prefix + Unlines(lines)) + (line + "\n") == prefix + Unlines(lines + [line])
  {
    UnlinesSnoc(lines, line);
  }

  lemma {:induction false} UnlinesAppend(a: seq<string>, b: seq<string>)
    ensures Unlines(a + b) == Unlines(a) + Unlines(b)
    decreases |b|
  {
    if b == [] {
      assert a + b == a;
    } else {
      var n := |b| - 1;
      assert (a + b)[..|a + b| - 1] == a + b[..n];
      UnlinesAppend(a, b[..n]);
    }
  }

  /** Lines that contain no newline are recovered by splitting the text on "\n". */
  lemma {:induction false} SplitUnlines(lines: seq<string>)
    requires forall k :: 0 <= k < |lines| ==> '\n' !in lines[k]
    ensures Split(Unlines(lines), "\n") == lines + [""]
  {
    UnlinesAsJoin(lines);
    SplitJoin(lines + [""], "\n");
  }

  lemma {:induction false} UnlinesAsJoin(lines: seq<string>)
    ensures Unlines(lines) == Join(lines + [""], "\n")
  {
    if lines != [] {
      UnlinesAsJoin(lines[1..]);
      UnlinesAppend([lines[0]], lines[1..]);
      assert [lines[0]] + lines[1..] == lines;
      assert Unlines([lines[0]]) == lines[0] + "\n";
      assert (lines + [""])[1..] == lines[1..] + [""];
    }
  }

  // --------------------------------------------------------------- decimals

  predicate IsDigit(c: char)
  {
    '0' <= c <= '9'
  }

  predicate AllDigits(s: string)
  {
    forall i | 0 <= i < |s| :: IsDigit(s[i])
  }

  function DigitChar(d: nat): (c: char)
    requires d < 10
    ensures IsDigit(c)
  {
    ('0' as int + d) as char
  }

  /** The decimal digits of `n`, most significant first. */
  function NatText(n: nat): (r: string)
    ensures |r| >= 1 && AllDigits(r)
  {
    if n < 10 then [DigitChar(n)] else NatText(n / 10) + [DigitChar(n % 10)]
  }

  function ParseNat(s: string): nat
    requires AllDigits(s)
  {
    if s == [] then 0 else ParseNat(s[..|s| - 1]) * 10 + (s[|s| - 1] as int - '0' as int)
  }

  /** `long.ToString()`: an optional minus sign, then the digits of the magnitude. */
  function DecimalText(n: int): (r: string)
    ensures IsDecimal(r)
    ensures r[0] == '-' <==> n < 0
    ensures forall i :: 0 <= i < |r| ==> IsDigit(r[i]) || (i == 0 && r[i] == '-')
  {
    if n < 0 then "-" + NatText(-n) else NatText(n)
  }

  /** An optional minus sign followed by at least one digit. */
  predicate IsDecimal(s: string)
  {
    |s| >= 1 && AllDigits(if s[0] == '-' then s[1..] else s) && (s[0] == '-' ==> |s| >= 2)
  }

  function ParseDecimal(s: string): int
    requires IsDecimal(s)
  {
    if s[0] == '-' then -(ParseNat(s[1..]) as int) else ParseNat(s)
  }

  lemma {:induction false} ParseNatText(n: nat)
    ensures ParseNat(NatText(n)) == n
  {
    if n >= 10 {
      var t := NatText(n / 10) + [DigitChar(n % 10)];
      assert t[..|t| - 1] == NatText(n / 10);
      ParseNatText(n / 10);
    }
  }

  /** The decimal text of an integer reads back as that integer. */
  lemma DecimalRoundTrip(n: int)
    ensures ParseDecimal(DecimalText(n)) == n
  {
    if n < 0 {
      assert DecimalText(n)[1..] == NatText(-n);
      ParseNatText(-n);
    } else {
      ParseNatText(n);
    }
  }
}
