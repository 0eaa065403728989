/**
  Models of the .NET string operations the generator is written with:
  String.Replace, String.Split, String.Contains, String.ToUpper,
  String.Format (placeholders only), Int32.ToString and integer parsing.
  Strings are sequences of characters; nothing here depends on a culture.
*/
module Text {

  // ---------------------------------------------------------------------
  // Digits, integer parsing and printing
  // ---------------------------------------------------------------------

  predicate IsDigit(c: char) { '0' <= c <= '9' }

  predicate AllDigits(s: string) { forall i :: 0 <= i < |s| ==> IsDigit(s[i]) }

  /** The text that int.Parse accepts (and double.TryParse accepts as an
      integral number): an optional sign followed by at least one digit. */
  predicate IsInt(s: string) {
    if |s| > 0 && (s[0] == '-' || s[0] == '+') then |s| > 1 && AllDigits(s[1..])
    else |s| > 0 && AllDigits(s)
  }

  function DigitValue(c: char): nat
    requires IsDigit(c)
  {
    c as int - '0' as int
  }

  function DigitsValue(s: string): nat
    requires AllDigits(s)
    decreases |s|
  {
    if s == [] then 0 else 10 * DigitsValue(s[..|s| - 1]) + DigitValue(s[|s| - 1])
  }

  /** The value of a two-digit numeral. */
  lemma TwoDigits(d1: char, d2: char)
    requires IsDigit(d1) && IsDigit(d2)
    ensures AllDigits([d1, d2]) && DigitsValue([d1, d2]) == 10 * DigitValue(d1) + DigitValue(d2)
  {
    assert [d1, d2][..1] == [d1] && [d1][..0] == [];
    assert DigitsValue([d1]) == 10 * DigitsValue([]) + DigitValue(d1);
    assert DigitsValue([d1, d2]) == 10 * DigitsValue([d1]) + DigitValue(d2);
  }

  /** The value int.Parse gives to a string that IsInt accepts. */
  function ParseInt(s: string): int
    requires IsInt(s)
  {
    if s[0] == '-' then -(DigitsValue(s[1..]) as int)
    else if s[0] == '+' then DigitsValue(s[1..])
    else DigitsValue(s)
  }

  function DigitChar(d: nat): (c: char)
    requires d < 10
    ensures IsDigit(c) && DigitValue(c) == d && c as int == '0' as int + d
  {
    ('0' as int + d) as char
  }

  /** Decimal digits of a natural number, most significant first, no leading zeros. */
  function NatToDec(n: nat): (r: string)
    ensures |r| > 0 && AllDigits(r)
    ensures n > 0 ==> r[0] != '0'
    decreases n
  {
    if n < 10 then [DigitChar(n)] else NatToDec(n / 10) + [DigitChar(n % 10)]
  }

  /** Int32.ToString() in the invariant culture: a minus sign for negatives. */
  function IntToDec(n: int): string
  {
    if n < 0 then "-" + NatToDec(-n) else NatToDec(n)
  }

  /** A two-digit number prints as its tens digit and its units digit. */
  lemma TwoDigitDec(n: int)
    requires 10 <= n < 100
    ensures IntToDec(n) == [DigitChar(n / 10), DigitChar(n % 10)]
  {
    assert NatToDec(n / 10) == [DigitChar(n / 10)];
  }

  /** The characters a printed integer can contain. */
  predicate DecChars(s: string) { forall i :: 0 <= i < |s| ==> IsDigit(s[i]) || s[i] == '-' }

  lemma {:induction false} DigitsValueOfNatToDec(n: nat)
    ensures DigitsValue(NatToDec(n)) == n
    decreases n
  {
    if n >= 10 {
      var p := NatToDec(n / 10);
      var d := DigitChar(n % 10);
      assert (p + [d])[..|p|] == p;
      DigitsValueOfNatToDec(n / 10);
    }
  }

  /** Printing an integer and parsing it back gives the integer: the round trip
      that makes the decimal rendering in names and formulas unambiguous. */
  lemma ParseIntToDec(n: int)
    ensures IsInt(IntToDec(n)) && ParseInt(IntToDec(n)) == n
  {
    if n < 0 {
      var s := IntToDec(n);
      assert s[1..] == NatToDec(-n);
      DigitsValueOfNatToDec(-n);
    } else {
      DigitsValueOfNatToDec(n);
    }
  }

  lemma IntToDecChars(n: int)
    ensures |IntToDec(n)| > 0 && DecChars(IntToDec(n))
  {
  }

  /** A printed integer holds no letter, blank or operator other than '-'. */
  lemma DecCharsExclude(s: string, c: char)
    requires DecChars(s) && !IsDigit(c) && c != '-'
    ensures c !in s && NoLower(s)
  {
  }

  // ---------------------------------------------------------------------
  // String.Replace
  // ---------------------------------------------------------------------

  /** String.Replace(pat, rep): one left-to-right pass that replaces every
      non-overlapping occurrence of pat. .NET throws for an empty pat. */
  function ReplaceAll(s: string, pat: string, rep: string): string
    requires pat != []
    decreases |s|
  {
    if |s| < |pat| then s
    else if s[..|pat|] == pat then rep + ReplaceAll(s[|pat|..], pat, rep)
    else [s[0]] + ReplaceAll(s[1..], pat, rep)
  }

  /** A prefix that cannot start an occurrence is copied unchanged. */
  lemma {:induction false} ReplaceSkipsPrefix(p: string, t: string, pat: string, rep: string)
    requires pat != [] && pat[0] !in p
    ensures ReplaceAll(p + t, pat, rep) == p + ReplaceAll(t, pat, rep)
    decreases |p|
  {
    if p == [] {
      assert p + t == t;
    } else {
      var s := p + t;
      if |s| < |pat| {
        ReplaceShort(s, pat, rep);
        ReplaceShort(t, pat, rep);
      } else {
        assert s[..|pat|][0] == p[0] != pat[0];
        assert ReplaceAll(s, pat, rep) == [s[0]] + ReplaceAll(s[1..], pat, rep);
        assert s[1..] == p[1..] + t;
        ReplaceSkipsPrefix(p[1..], t, pat, rep);
        assert p == [p[0]] + p[1..];
      }
    }
  }

  lemma ReplaceShort(t: string, pat: string, rep: string)
    requires pat != [] && |t| < |pat|
    ensures ReplaceAll(t, pat, rep) == t
  {
  }

  /** A string without the first character of pat is left as it is. */
  lemma ReplaceAbsent(s: string, pat: string, rep: string)
    requires pat != [] && pat[0] !in s
    ensures ReplaceAll(s, pat, rep) == s
  {
    ReplaceSkipsPrefix(s, [], pat, rep);
    assert s + [] == s;
  }

  /** An occurrence at the front is replaced. */
  lemma ReplaceAtFront(t: string, pat: string, rep: string)
    requires pat != []
    ensures ReplaceAll(pat + t, pat, rep) == rep + ReplaceAll(t, pat, rep)
  {
    var s := pat + t;
    assert s[..|pat|] == pat;
    assert s[|pat|..] == t;
  }

  /** Replacing a single character distributes over concatenation. */
  lemma {:induction false} ReplaceCharAppend(a: string, b: string, c: char, rep: string)
    ensures ReplaceAll(a + b, [c], rep) == ReplaceAll(a, [c], rep) + ReplaceAll(b, [c], rep)
    decreases |a|
  {
    if a == [] {
      assert a + b == b;
    } else {
      var s := a + b;
      assert s[1..] == a[1..] + b;
      assert s[..1] == a[..1];
      ReplaceCharAppend(a[1..], b, c, rep);
      if a[..1] == [c] {
        assert ReplaceAll(a, [c], rep) == rep + ReplaceAll(a[1..], [c], rep);
      } else {
        assert ReplaceAll(a, [c], rep) == [a[0]] + ReplaceAll(a[1..], [c], rep);
      }
    }
  }

  /** Removing a single character leaves no occurrence of it. */
  lemma {:induction false} RemoveCharGone(s: string, c: char)
    ensures c !in ReplaceAll(s, [c], "")
    decreases |s|
  {
    if s != [] {
      RemoveCharGone(s[1..], c);
    }
  }

  /** Replacing a single character by text without it leaves no occurrence of it. */
  lemma {:induction false} ReplaceCharGone(s: string, c: char, rep: string)
    requires c !in rep
    ensures c !in ReplaceAll(s, [c], rep)
    decreases |s|
  {
    if s != [] {
      ReplaceCharGone(s[1..], c, rep);
    }
  }

  /** Replacing never adds a character that is in neither the text nor the replacement. */
  lemma {:induction false} ReplaceKeepsAbsent(s: string, pat: string, rep: string, c: char)
    requires pat != [] && c !in s && c !in rep
    ensures c !in ReplaceAll(s, pat, rep)
    decreases |s|
  {
    if |s| >= |pat| {
      if s[..|pat|] == pat {
        ReplaceKeepsAbsent(s[|pat|..], pat, rep, c);
      } else {
        ReplaceKeepsAbsent(s[1..], pat, rep, c);
      }
    }
  }

  /** Every character of the result comes from the text or the replacement. */
  lemma {:induction false} ReplaceChars(s: string, pat: string, rep: string, P: char -> bool)
    requires pat != []
    requires forall i :: 0 <= i < |s| ==> P(s[i])
    requires forall i :: 0 <= i < |rep| ==> P(rep[i])
    ensures forall i :: 0 <= i < |ReplaceAll(s, pat, rep)| ==> P(ReplaceAll(s, pat, rep)[i])
    decreases |s|
  {
    if |s| >= |pat| {
      if s[..|pat|] == pat {
        ReplaceChars(s[|pat|..], pat, rep, P);
      } else {
        ReplaceChars(s[1..], pat, rep, P);
      }
    }
  }

  // ---------------------------------------------------------------------
  // String.Contains (used by List.Find in the generator)
  // ---------------------------------------------------------------------

  /** String.Contains(pat): pat occurs somewhere in s (the empty string always does). */
  predicate Contains(s: string, pat: string)
    decreases |s|
  {
    pat <= s || (|s| > 0 && Contains(s[1..], pat))
  }

  // ---------------------------------------------------------------------
  // String.ToUpper (ASCII letters only)
  // ---------------------------------------------------------------------

  predicate IsLower(c: char) { 'a' <= c <= 'z' }

  function Upper(c: char): char
  {
    if IsLower(c) then (c as int - 32) as char else c
  }

  function ToUpper(s: string): string
    decreases |s|
  {
    if s == [] then [] else [Upper(s[0])] + ToUpper(s[1..])
  }

  predicate NoLower(s: string) { forall i :: 0 <= i < |s| ==> !IsLower(s[i]) }

  /** ToUpper leaves no lower-case letter, keeps the length, and changes only
      lower-case letters. */
  lemma {:induction false} ToUpperSpec(s: string)
    ensures |ToUpper(s)| == |s|
    ensures forall i :: 0 <= i < |s| ==> ToUpper(s)[i] == Upper(s[i])
    ensures NoLower(ToUpper(s))
    ensures forall i :: 0 <= i < |s| && !IsLower(s[i]) ==> ToUpper(s)[i] == s[i]
    decreases |s|
  {
    if s != [] {
      ToUpperSpec(s[1..]);
    }
  }

  /** Upper-casing a string that has no lower-case letter changes nothing. */
  lemma ToUpperIdentity(s: string)
    requires NoLower(s)
    ensures ToUpper(s) == s
  {
    ToUpperSpec(s);
  }

  lemma {:induction false} ToUpperAppend(a: string, b: string)
    ensures ToUpper(a + b) == ToUpper(a) + ToUpper(b)
    decreases |a|
  {
    if a != [] {
      assert (a + b)[1..] == a[1..] + b;
      ToUpperAppend(a[1..], b);
    } else {
      assert a + b == b;
    }
  }

  // ---------------------------------------------------------------------
  // String.Split(char) and its inverse
  // ---------------------------------------------------------------------

  /** String.Split(sep): the pieces between separators; n separators give n + 1 pieces. */
  function Split(s: string, sep: char): (parts: seq<string>)
    ensures |parts| >= 1
    ensures sep in s <==> |parts| >= 2
    decreases |s|
  {
    if s == [] then [""]
    else
      var rest := Split(s[1..], sep);
      assert s == [s[0]] + s[1..];
      if s[0] == sep then [""] + rest
      else [[s[0]] + rest[0]] + rest[1..]
  }

  /** String.Join(sep, parts). */
  function Join(parts: seq<string>, sep: char): string
    requires |parts| >= 1
  {
    if |parts| == 1 then parts[0] else parts[0] + [sep] + Join(parts[1..], sep)
  }

  /** Joining the pieces of a split restores the text. */
  lemma {:induction false} JoinSplit(s: string, sep: char)
    ensures Join(Split(s, sep), sep) == s
    decreases |s|
  {
    if s != [] {
      JoinSplit(s[1..], sep);
      var rest := Split(s[1..], sep);
      if s[0] != sep {
        var parts := Split(s, sep);
        assert parts[0] == [s[0]] + rest[0];
        assert parts[1..] == rest[1..];
      }
    }
  }

  /** No piece of a split contains the separator. */
  lemma {:induction false} SplitPiecesFree(s: string, sep: char)
    ensures forall k :: 0 <= k < |Split(s, sep)| ==> sep !in Split(s, sep)[k]
    decreases |s|
  {
    if s != [] {
      SplitPiecesFree(s[1..], sep);
    }
  }

  /** Splitting a join of separator-free pieces gives the pieces back. */
  lemma {:induction false} SplitJoin(parts: seq<string>, sep: char)
    requires |parts| >= 1
    requires forall k :: 0 <= k < |parts| ==> sep !in parts[k]
    ensures Split(Join(parts, sep), sep) == parts
    decreases |parts|, |parts[0]|
  {
    var p := parts[0];
    var s := Join(parts, sep);
    if p == [] {
      if |parts| > 1 {
        SplitJoin(parts[1..], sep);
        assert s == [sep] + Join(parts[1..], sep);
        assert s[1..] == Join(parts[1..], sep);
        assert Split(s, sep) == [""] + Split(s[1..], sep);
        assert [""] + parts[1..] == parts;
      }
    } else {
      var tail := [p[1..]] + parts[1..];
      SplitJoin(tail, sep);
      if |parts| > 1 {
        assert Join(tail, sep) == p[1..] + [sep] + Join(parts[1..], sep);
        assert s == [p[0]] + Join(tail, sep);
      } else {
        assert s == [p[0]] + Join(tail, sep);
      }
      assert s[1..] == Join(tail, sep);
      assert s[0] == p[0] != sep;
      assert Split(s, sep) == [[p[0]] + tail[0]] + tail[1..];
      assert [p[0]] + p[1..] == p;
      assert [p] + tail[1..] == parts;
    }
  }

  // ---------------------------------------------------------------------
  // String.Format with positional placeholders
  // ---------------------------------------------------------------------

  predicate NoBraces(s: string) { '{' !in s && '}' !in s }

  /** String.Format(s, args) for text whose only braces are placeholders
      "{d}" with a single digit d naming one of args. (.NET throws on other
      braces; the generator's templates contain none.) */
  function Format(s: string, args: seq<string>): string
    decreases |s|
  {
    if |s| >= 3 && s[0] == '{' && IsDigit(s[1]) && DigitValue(s[1]) < |args| && s[2] == '}' then
      args[DigitValue(s[1])] + Format(s[3..], args)
    else if s == [] then []
    else [s[0]] + Format(s[1..], args)
  }

  /** Placeholder "{d}" for argument d. */
  function Placeholder(d: nat): string
    requires d < 10
  {
    ['{', DigitChar(d), '}']
  }

  lemma FormatPlaceholder(d: nat, t: string, args: seq<string>)
    requires d < 10 && d < |args|
    ensures Format(Placeholder(d) + t, args) == args[d] + Format(t, args)
  {
    var s := Placeholder(d) + t;
    assert s[3..] == t;
  }

  lemma FormatPlainChar(c: char, t: string, args: seq<string>)
    requires c != '{'
    ensures Format([c] + t, args) == [c] + Format(t, args)
  {
    assert ([c] + t)[1..] == t;
  }

  lemma {:induction false} FormatPlain(p: string, t: string, args: seq<string>)
    requires '{' !in p
    ensures Format(p + t, args) == p + Format(t, args)
    decreases |p|
  {
    if p == [] {
      assert p + t == t;
    } else {
      assert p + t == [p[0]] + (p[1..] + t);
      FormatPlainChar(p[0], p[1..] + t, args);
      FormatPlain(p[1..], t, args);
    }
  }
}
