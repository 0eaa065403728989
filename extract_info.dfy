/**
  The ExtractInfo helper class of the lipid generator: the range resolver
  (findIndex, addIndexToRange, getDependendRange) and the template
  formatters (getName, getMolComp, getElemCompFA).
*/
module ExtractInfo {
  import opened Text

  // ---------------------------------------------------------------------
  // Range resolver
  // ---------------------------------------------------------------------

  predicate NoDup(s: seq<int>) { forall p, q :: 0 <= p < q < |s| ==> s[p] != s[q] }

  /** The integers lo, lo + 1, ..., hi in ascending order (empty when hi < lo). */
  function Interval(lo: int, hi: int): (r: seq<int>)
    ensures |r| == if hi < lo then 0 else hi - lo + 1
    ensures forall k :: 0 <= k < |r| ==> r[k] == lo + k
  {
    seq(if hi < lo then 0 else hi - lo + 1, k => lo + k)
  }

  /** C#'s integer division, which truncates toward zero. */
  function CsDiv(a: int, d: int): int
    requires d > 0
  {
    if a >= 0 then a / d else -((-a) / d)
  }

  /** getDependendRange: a numeric part stands for its own value; any other
      text stands for the one supported formula, a / 2 - 5 (b is ignored). */
  function DependentBound(part: string, a: int, b: int): int
  {
    if IsInt(part) then ParseInt(part) else CsDiv(a, 2) - 5
  }

  /** What addIndexToRange leaves in the list: i = min, ..., max is appended
      in turn unless the list already holds it. */
  function AddRange(list: seq<int>, min: int, max: int): seq<int>
    decreases if max < min then 0 else max - min + 1
  {
    if max < min then list
    else
      var p := AddRange(list, min, max - 1);
      if max in p then p else p + [max]
  }

  /** addIndexToRange keeps the list as a prefix, appends exactly the missing
      values of [min, max] in ascending order, and never creates a duplicate. */
  lemma AddRangeSpec(list: seq<int>, min: int, max: int)
    ensures var r := AddRange(list, min, max);
      && |list| <= |r| && r[..|list|] == list
      && (forall v :: v in r <==> v in list || min <= v <= max)
      && (forall p, q :: |list| <= p < q < |r| ==> r[p] < r[q])
      && (forall p :: |list| <= p < |r| ==> r[p] !in list)
      && (NoDup(list) ==> NoDup(r))
  {
    AddRangePrefix(list, min, max);
    AddRangeMembers(list, min, max);
    AddRangeNew(list, min, max);
    AddRangeAscending(list, min, max);
    if NoDup(list) {
      AddRangeNoDup(list, min, max);
    }
  }

  lemma {:induction false} AddRangePrefix(list: seq<int>, min: int, max: int)
    ensures var r := AddRange(list, min, max); |list| <= |r| && r[..|list|] == list
    decreases if max < min then 0 else max - min + 1
  {
    if max >= min {
      AddRangePrefix(list, min, max - 1);
      var p := AddRange(list, min, max - 1);
      if max !in p {
        assert (p + [max])[..|list|] == p[..|list|];
      }
    }
  }

  lemma {:induction false} AddRangeMembers(list: seq<int>, min: int, max: int)
    ensures forall v :: v in AddRange(list, min, max) <==> v in list || min <= v <= max
    decreases if max < min then 0 else max - min + 1
  {
    if max >= min {
      AddRangeMembers(list, min, max - 1);
    }
  }

  lemma {:induction false} AddRangeNew(list: seq<int>, min: int, max: int)
    ensures forall k :: |list| <= k < |AddRange(list, min, max)| ==> AddRange(list, min, max)[k] !in list
    decreases if max < min then 0 else max - min + 1
  {
    if max >= min {
      AddRangeNew(list, min, max - 1);
      AddRangePrefix(list, min, max - 1);
      var p := AddRange(list, min, max - 1);
      if max !in p {
        forall k | 0 <= k < |list| ensures list[k] != max {
          assert list[k] == p[k] && p[k] in p;
        }
      }
    }
  }

  lemma {:induction false} AddRangeAscending(list: seq<int>, min: int, max: int)
    ensures forall a, b :: |list| <= a < b < |AddRange(list, min, max)| ==> AddRange(list, min, max)[a] < AddRange(list, min, max)[b]
    decreases if max < min then 0 else max - min + 1
  {
    if max >= min {
      AddRangeAscending(list, min, max - 1);
      var p := AddRange(list, min, max - 1);
      if max !in p {
        AddRangeMembers(list, min, max - 1);
        AddRangeNew(list, min, max - 1);
        var r := p + [max];
        assert AddRange(list, min, max) == r;
        forall a, b | |list| <= a < b < |r| ensures r[a] < r[b] {
          if b == |p| {
            assert p[a] in p && p[a] !in list;
          } else {
            assert r[a] == p[a] && r[b] == p[b];
          }
        }
      } else {
        assert AddRange(list, min, max) == p;
      }
    }
  }

  lemma {:induction false} AddRangeNoDup(list: seq<int>, min: int, max: int)
    requires NoDup(list)
    ensures NoDup(AddRange(list, min, max))
    decreases if max < min then 0 else max - min + 1
  {
    if max >= min {
      AddRangeNoDup(list, min, max - 1);
      var p := AddRange(list, min, max - 1);
      if max !in p {
        var r := p + [max];
        forall a, b | 0 <= a < b < |r| ensures r[a] != r[b] {
          if b == |p| {
            assert r[a] == p[a] && p[a] in p;
          }
        }
      }
    }
  }

  /** When min > max nothing changes. */
  lemma AddRangeEmpty(list: seq<int>, min: int, max: int)
    requires min > max
    ensures AddRange(list, min, max) == list
  {
  }

  /** Values that are all outside [min, max] are followed by the whole interval. */
  lemma {:induction false} AddRangeFresh(list: seq<int>, min: int, max: int)
    requires forall k :: 0 <= k < |list| ==> list[k] < min || list[k] > max
    ensures AddRange(list, min, max) == list + Interval(min, max)
    decreases if max < min then 0 else max - min + 1
  {
    if max >= min {
      AddRangeFresh(list, min, max - 1);
      assert max !in list + Interval(min, max - 1);
      assert list + Interval(min, max - 1) + [max] == list + Interval(min, max);
    }
  }

  /** addIndexToRange (LipidGeneratorNode.cs:538-546). */
  method AddIndexToRange(list: seq<int>, min: int, max: int) returns (r: seq<int>)
    ensures r == AddRange(list, min, max)
  {
    r := list;
    var i := min;
    while i <= max
      invariant min <= i && (i <= max + 1 || i == min)
      invariant r == AddRange(list, min, i - 1)
      decreases max - i
    {
      if i !in r {
        r := r + [i];
      }
      i := i + 1;
    }
  }

  /** A token that findIndex handles without an exception: int.Parse throws
      on the pieces of a "lo-hi" token that are not integers. */
  predicate TokenOk(tok: string)
  {
    IsInt(tok) || '=' in tok || '-' !in tok
    || (IsInt(Split(tok, '-')[0]) && IsInt(Split(tok, '-')[1]))
  }

  /** The list after one comma-separated token has been processed. */
  function TokenStep(acc: seq<int>, tok: string, a: int, b: int): seq<int>
    requires TokenOk(tok)
  {
    if IsInt(tok) then acc + [ParseInt(tok)]
    else if '=' in tok then
      if ';' in tok then
        var parts := Split(tok, ';');
        AddRange(acc, DependentBound(parts[0], a, b), DependentBound(parts[1], a, b))
      else
        AddRange(acc, 0, DependentBound(tok, a, b))
    else if '-' in tok then
      var parts := Split(tok, '-');
      AddRange(acc, ParseInt(parts[0]), ParseInt(parts[1]))
    else acc
  }

  predicate TokensOk(toks: seq<string>) { forall k :: 0 <= k < |toks| ==> TokenOk(toks[k]) }

  function ResolveTokens(toks: seq<string>, a: int, b: int): seq<int>
    requires TokensOk(toks)
    decreases |toks|
  {
    if toks == [] then []
    else TokenStep(ResolveTokens(toks[..|toks| - 1], a, b), toks[|toks| - 1], a, b)
  }

  predicate SpecOk(spec: string) { TokensOk(Split(spec, ',')) }

  /** findIndex(spec, a, b): the ordered list of indices a range specification denotes. */
  function Resolve(spec: string, a: int, b: int): seq<int>
    requires SpecOk(spec)
  {
    if spec == "" then [0] else ResolveTokens(Split(spec, ','), a, b)
  }

  /** findIndex (LipidGeneratorNode.cs:437-500). */
  method FindIndex(spec: string, a: int, b: int) returns (limits: seq<int>)
    requires SpecOk(spec)
    ensures limits == Resolve(spec, a, b)
  {
    limits := [];
    if spec != "" {
      var tokens := Split(spec, ',');
      var k := 0;
      while k < |tokens|
        invariant 0 <= k <= |tokens|
        invariant limits == ResolveTokens(tokens[..k], a, b)
      {
        var tok := tokens[k];
        if IsInt(tok) {
          limits := limits + [ParseInt(tok)];
        } else if '=' in tok {
          if ';' in tok {
            var parts := Split(tok, ';');
            var min := DependentBound(parts[0], a, b);
            var max := DependentBound(parts[1], a, b);
            limits := AddIndexToRange(limits, min, max);
          } else {
            var max := DependentBound(tok, a, b);
            limits := AddIndexToRange(limits, 0, max);
          }
        } else if '-' in tok {
          var parts := Split(tok, '-');
          var min := ParseInt(parts[0]);
          var max := ParseInt(parts[1]);
          limits := AddIndexToRange(limits, min, max);
        }
        assert tokens[..k + 1][..k] == tokens[..k];
        k := k + 1;
      }
      assert tokens[..k] == tokens;
    } else {
      limits := limits + [0];
    }
  }

  /** What one token stands for, by token form: a single integer, the
      integers of a closed range, or nothing. */
  datatype Contribution = Single(value: int) | Span(lo: int, hi: int) | Nothing

  predicate InContribution(c: Contribution, v: int)
  {
    match c
    case Single(w) => v == w
    case Span(lo, hi) => lo <= v <= hi
    case Nothing => false
  }

  function TokenContribution(tok: string, a: int, b: int): Contribution
    requires TokenOk(tok)
  {
    if IsInt(tok) then Single(ParseInt(tok))
    else if '=' in tok then
      if ';' in tok then
        var parts := Split(tok, ';');
        Span(DependentBound(parts[0], a, b), DependentBound(parts[1], a, b))
      else
        Span(0, DependentBound(tok, a, b))
    else if '-' in tok then
      var parts := Split(tok, '-');
      Span(ParseInt(parts[0]), ParseInt(parts[1]))
    else Nothing
  }

  /** Processing a token keeps the list so far as a prefix and adds exactly
      the token's values; only a numeric token can add a duplicate. */
  lemma TokenStepSpec(acc: seq<int>, tok: string, a: int, b: int)
    requires TokenOk(tok)
    ensures var r := TokenStep(acc, tok, a, b);
      && |acc| <= |r| && r[..|acc|] == acc
      && (forall v :: v in r <==> v in acc || InContribution(TokenContribution(tok, a, b), v))
      && (!IsInt(tok) && NoDup(acc) ==> NoDup(r))
  {
    if IsInt(tok) {
      assert (acc + [ParseInt(tok)])[..|acc|] == acc;
    } else if '=' in tok {
      if ';' in tok {
        var parts := Split(tok, ';');
        AddRangeSpec(acc, DependentBound(parts[0], a, b), DependentBound(parts[1], a, b));
      } else {
        AddRangeSpec(acc, 0, DependentBound(tok, a, b));
      }
    } else if '-' in tok {
      var parts := Split(tok, '-');
      AddRangeSpec(acc, ParseInt(parts[0]), ParseInt(parts[1]));
    }
  }

  /** Text containing '=' is never numeric, so getDependendRange of a whole
      "=" token always falls back to the formula. */
  lemma EqualsNotNumeric(s: string)
    requires '=' in s
    ensures !IsInt(s)
  {
    var k :| 0 <= k < |s| && s[k] == '=';
    if |s| > 0 && (s[0] == '-' || s[0] == '+') {
      assert s[1..][k - 1] == '=';
    }
  }

  /** A "=" token without ';' stands for 0 .. a/2 - 5; with ';' for the range
      between the values of its two sides. */
  lemma DependentTokenValues(tok: string, a: int, b: int)
    requires '=' in tok
    ensures TokenOk(tok)
    ensures ';' !in tok ==> TokenContribution(tok, a, b) == Span(0, CsDiv(a, 2) - 5)
    ensures ';' !in tok ==> forall acc :: TokenStep(acc, tok, a, b) == AddRange(acc, 0, CsDiv(a, 2) - 5)
    ensures ';' in tok ==>
      var parts := Split(tok, ';');
      forall acc :: TokenStep(acc, tok, a, b)
        == AddRange(acc, DependentBound(parts[0], a, b), DependentBound(parts[1], a, b))
  {
    EqualsNotNumeric(tok);
  }

  /** The resolved list of a token prefix is a prefix of the resolved list:
      values keep the order in which their tokens first produced them. */
  lemma {:induction false} ResolvePrefix(toks: seq<string>, k: nat, a: int, b: int)
    requires TokensOk(toks) && k <= |toks|
    ensures var p := ResolveTokens(toks[..k], a, b);
      var r := ResolveTokens(toks, a, b);
      |p| <= |r| && r[..|p|] == p
    decreases |toks|
  {
    if k < |toks| {
      var init := toks[..|toks| - 1];
      assert init[..k] == toks[..k];
      ResolvePrefix(init, k, a, b);
      TokenStepSpec(ResolveTokens(init, a, b), toks[|toks| - 1], a, b);
    } else {
      assert toks[..k] == toks;
    }
  }

  /** Set law: an integer is in the resolved list iff some token stands for it. */
  lemma {:induction false} ResolveMembers(toks: seq<string>, a: int, b: int, v: int)
    requires TokensOk(toks)
    ensures v in ResolveTokens(toks, a, b) <==>
      exists k :: 0 <= k < |toks| && InContribution(TokenContribution(toks[k], a, b), v)
    decreases |toks|
  {
    if toks != [] {
      var init := toks[..|toks| - 1];
      var last := toks[|toks| - 1];
      ResolveMembers(init, a, b, v);
      var prev := ResolveTokens(init, a, b);
      assert ResolveTokens(toks, a, b) == TokenStep(prev, last, a, b);
      TokenStepSpec(prev, last, a, b);
      assert v in ResolveTokens(toks, a, b) <==> v in prev || InContribution(TokenContribution(last, a, b), v);
      if exists k :: 0 <= k < |toks| && InContribution(TokenContribution(toks[k], a, b), v) {
        var k :| 0 <= k < |toks| && InContribution(TokenContribution(toks[k], a, b), v);
        if k < |toks| - 1 {
          assert init[k] == toks[k];
        }
      }
      if exists k :: 0 <= k < |init| && InContribution(TokenContribution(init[k], a, b), v) {
        var k :| 0 <= k < |init| && InContribution(TokenContribution(init[k], a, b), v);
        assert toks[k] == init[k];
      }
    }
  }

  /** Range and dependent tokens never introduce a duplicate: a specification
      without numeric tokens resolves to a duplicate-free list. */
  lemma {:induction false} ResolveNoDup(toks: seq<string>, a: int, b: int)
    requires TokensOk(toks)
    requires forall k :: 0 <= k < |toks| ==> !IsInt(toks[k])
    ensures NoDup(ResolveTokens(toks, a, b))
    decreases |toks|
  {
    if toks != [] {
      var init := toks[..|toks| - 1];
      ResolveNoDup(init, a, b);
      TokenStepSpec(ResolveTokens(init, a, b), toks[|toks| - 1], a, b);
    }
  }

  /** Numeric tokens are appended with no duplicate check: a list of printed
      integers resolves to exactly those integers, repetitions included. */
  lemma {:induction false} ResolveNumerals(toks: seq<string>, vs: seq<int>, a: int, b: int)
    requires |toks| == |vs|
    requires forall k :: 0 <= k < |toks| ==> toks[k] == IntToDec(vs[k])
    ensures TokensOk(toks) && ResolveTokens(toks, a, b) == vs
    decreases |toks|
  {
    forall k | 0 <= k < |toks| ensures IsInt(toks[k]) && ParseInt(toks[k]) == vs[k] {
      ParseIntToDec(vs[k]);
    }
    if toks != [] {
      ResolveNumerals(toks[..|toks| - 1], vs[..|vs| - 1], a, b);
      assert vs[..|vs| - 1] + [vs[|vs| - 1]] == vs;
    }
  }

  /** Comma-joined printed integers. */
  function Numerals(vs: seq<int>): seq<string>
  {
    seq(|vs|, k requires 0 <= k < |vs| => IntToDec(vs[k]))
  }

  /** An empty specification yields exactly [0]; a comma-separated list of
      integers yields those integers in order, duplicates kept. */
  lemma ResolveLiteralSpec(vs: seq<int>, a: int, b: int)
    requires |vs| >= 1
    ensures SpecOk("") && Resolve("", a, b) == [0]
    ensures SpecOk(Join(Numerals(vs), ',')) && Resolve(Join(Numerals(vs), ','), a, b) == vs
  {
    var toks := Numerals(vs);
    NumeralsSplit(vs);
    ResolveNumerals(toks, vs, a, b);
    IntToDecChars(vs[0]);
    JoinNonEmpty(toks, ',');
    var spec := Join(toks, ',');
    assert spec != "";
    assert Resolve(spec, a, b) == ResolveTokens(Split(spec, ','), a, b);
  }

  /** Splitting the comma-joined printed integers gives them back. */
  lemma NumeralsSplit(vs: seq<int>)
    requires |vs| >= 1
    ensures Split(Join(Numerals(vs), ','), ',') == Numerals(vs)
  {
    var toks := Numerals(vs);
    forall k | 0 <= k < |toks| ensures ',' !in toks[k] {
      IntToDecChars(vs[k]);
    }
    SplitJoin(toks, ',');
  }

  lemma JoinNonEmpty(parts: seq<string>, sep: char)
    requires |parts| >= 1 && parts[0] != ""
    ensures Join(parts, sep) != ""
  {
  }

  /** "1,3,3,5" resolves to [1, 3, 3, 5]: the duplicate 3 is kept. */
  lemma ResolveDuplicateLiteral(a: int, b: int)
    ensures SpecOk("1,3,3,5") && Resolve("1,3,3,5", a, b) == [1, 3, 3, 5]
  {
    var vs := [1, 3, 3, 5];
    var ns := Numerals(vs);
    assert ns == ["1", "3", "3", "5"];
    assert ns[1..][1..][1..] == ["5"];
    assert Join(ns[1..][1..], ',') == "3,5";
    assert Join(ns[1..], ',') == "3,3,5";
    assert Join(ns, ',') == "1,3,3,5";
    ResolveLiteralSpec(vs, a, b);
  }

  lemma DigitsHaveNo(s: string, c: char)
    requires AllDigits(s) && !IsDigit(c)
    ensures c !in s
  {
  }

  /** A token that is not numeric and holds neither '=' nor '-' is skipped:
      a specification made only of such tokens resolves to nothing. */
  lemma {:induction false} IgnoredTokensResolve(toks: seq<string>, a: int, b: int)
    requires forall k :: 0 <= k < |toks| ==> !IsInt(toks[k]) && '=' !in toks[k] && '-' !in toks[k]
    ensures TokensOk(toks) && ResolveTokens(toks, a, b) == []
    decreases |toks|
  {
    if toks != [] {
      var init := toks[..|toks| - 1];
      assert forall k :: 0 <= k < |init| ==> init[k] == toks[k];
      IgnoredTokensResolve(init, a, b);
    }
  }

  /** A "lo-hi" token whose ends are digit strings stands for every integer in lo..hi. */
  lemma RangeTokenContribution(l: string, h: string, a: int, b: int)
    requires |l| > 0 && |h| > 0 && AllDigits(l) && AllDigits(h)
    ensures var tok := l + "-" + h;
      && TokenOk(tok) && ',' !in tok
      && TokenContribution(tok, a, b) == Span(DigitsValue(l), DigitsValue(h))
  {
    var tok := l + "-" + h;
    DigitsHaveNo(l, '-');
    DigitsHaveNo(h, '-');
    DigitsHaveNo(l, '=');
    DigitsHaveNo(h, '=');
    DigitsHaveNo(l, ',');
    DigitsHaveNo(h, ',');
    assert tok[|l|] == '-';
    assert !IsInt(tok) by {
      assert tok[0] == l[0] && IsDigit(l[0]);
      assert !IsDigit(tok[|l|]);
    }
    assert tok == l + ['-'] + h;
    assert Join([l, h], '-') == tok;
    SplitJoin([l, h], '-');
  }

  /** A specification made of one non-empty token resolves to that token processed on the empty list. */
  lemma SingleTokenResolve(tok: string, a: int, b: int)
    requires TokenOk(tok) && ',' !in tok && tok != ""
    ensures SpecOk(tok) && Resolve(tok, a, b) == TokenStep([], tok, a, b)
  {
    assert Join([tok], ',') == tok;
    SplitJoin([tok], ',');
    assert ResolveTokens([tok], a, b) == TokenStep(ResolveTokens([], a, b), tok, a, b);
  }

  /** A specification that is one unsigned numeral resolves to its value. */
  lemma NumeralSpecResolve(s: string, a: int, b: int)
    requires |s| > 0 && AllDigits(s)
    ensures SpecOk(s) && Resolve(s, a, b) == [DigitsValue(s)]
  {
    assert IsDigit(s[0]);
    assert IsInt(s) && ParseInt(s) == DigitsValue(s);
    DigitsHaveNo(s, ',');
    SingleTokenResolve(s, a, b);
    assert [] + [DigitsValue(s)] == [DigitsValue(s)];
  }

  /** A "lo-hi" specification resolves to the ascending interval lo..hi. */
  lemma RangeSpecResolve(l: string, h: string, a: int, b: int)
    requires |l| > 0 && |h| > 0 && AllDigits(l) && AllDigits(h)
    ensures SpecOk(l + "-" + h)
    ensures Resolve(l + "-" + h, a, b) == Interval(DigitsValue(l), DigitsValue(h))
  {
    var tok := l + "-" + h;
    RangeTokenContribution(l, h, a, b);
    SingleTokenResolve(tok, a, b);
    AddRangeFresh([], DigitsValue(l), DigitsValue(h));
    assert [] + Interval(DigitsValue(l), DigitsValue(h)) == Interval(DigitsValue(l), DigitsValue(h));
  }

  /** The unsaturation specification of the fatty-acyl family, "y=function",
      resolved for a chain length x of 12 to 22 gives 0 .. x/2 - 5, a
      non-empty range whose largest element is x/2 - 5. */
  lemma FattyAcylUnsaturation(x: int)
    requires 12 <= x <= 22
    ensures SpecOk("y=function")
    ensures Resolve("y=function", x, 0) == Interval(0, x / 2 - 5)
    ensures 1 <= x / 2 - 5 <= 6
  {
    var tok := "y=function";
    assert tok[1] == '=';
    assert ';' !in tok;
    assert ',' !in tok;
    DependentTokenValues(tok, x, 0);
    SingleTokenResolve(tok, x, 0);
    AddRangeFresh([], 0, x / 2 - 5);
    assert [] + Interval(0, x / 2 - 5) == Interval(0, x / 2 - 5);
  }

  // ---------------------------------------------------------------------
  // Template formatters
  // ---------------------------------------------------------------------

  /** getName, first half: x, y and z become the placeholders {0}, {1}, {2}. */
  function NamePlaceholders(t: string): string
  {
    ReplaceAll(ReplaceAll(ReplaceAll(t, "x", "{0}"), "y", "{1}"), "z", "{2}")
  }

  /** getName (LipidGeneratorNode.cs:548-555): every x, y and z of the
      template becomes the decimal of the corresponding index. The template
      must be free of braces, on which String.Format would throw. */
  function GetName(t: string, x: int, y: int, z: int): string
    requires NoBraces(t)
  {
    Format(NamePlaceholders(t), [IntToDec(x), IntToDec(y), IntToDec(z)])
  }

  /** Reference definition: every x, y and z of the template is replaced by
      the text sx, sy and sz, character by character. */
  function SubstXYZ(t: string, sx: string, sy: string, sz: string): string
    decreases |t|
  {
    if t == [] then []
    else
      var c := t[0];
      (if c == 'x' then sx else if c == 'y' then sy else if c == 'z' then sz else [c])
      + SubstXYZ(t[1..], sx, sy, sz)
  }

  lemma NamePlaceholdersCons(c: char, rest: string)
    ensures NamePlaceholders([c] + rest) == NamePlaceholders([c]) + NamePlaceholders(rest)
  {
    ReplaceCharAppend([c], rest, 'x', "{0}");
    ReplaceCharAppend(ReplaceAll([c], "x", "{0}"), ReplaceAll(rest, "x", "{0}"), 'y', "{1}");
    var a := ReplaceAll(ReplaceAll([c], "x", "{0}"), "y", "{1}");
    var b := ReplaceAll(ReplaceAll(rest, "x", "{0}"), "y", "{1}");
    ReplaceCharAppend(a, b, 'z', "{2}");
  }

  /** The placeholder strings as the template code writes them. */
  lemma PlaceholderDigits()
    ensures Placeholder(0) == "{0}" && Placeholder(1) == "{1}" && Placeholder(2) == "{2}" && Placeholder(3) == "{3}"
  {
  }

  lemma NamePlaceholdersChar(c: char)
    ensures NamePlaceholders([c]) ==
      if c == 'x' then Placeholder(0) else if c == 'y' then Placeholder(1)
      else if c == 'z' then Placeholder(2) else [c]
  {
    PlaceholderDigits();
    if c == 'x' {
      ReplaceAtFront("", "x", "{0}");
      assert "x" + "" == "x";
      assert ReplaceAll([c], "x", "{0}") == "{0}";
      ReplaceAbsent("{0}", "y", "{1}");
      ReplaceAbsent("{0}", "z", "{2}");
    } else if c == 'y' {
      assert ReplaceAll([c], "x", "{0}") == [c];
      ReplaceAtFront("", "y", "{1}");
      assert "y" + "" == "y";
      ReplaceAbsent("{1}", "z", "{2}");
    } else if c == 'z' {
      assert ReplaceAll([c], "x", "{0}") == [c];
      assert ReplaceAll([c], "y", "{1}") == [c];
      ReplaceAtFront("", "z", "{2}");
      assert "z" + "" == "z";
    } else {
      assert ReplaceAll([c], "x", "{0}") == [c];
      assert ReplaceAll([c], "y", "{1}") == [c];
      assert ReplaceAll([c], "z", "{2}") == [c];
    }
  }

  /** getName equals simultaneous substitution of x, y and z by the decimals
      of the indices: the placeholder detour through String.Format changes
      nothing, and every x, y, z of the template is replaced, wherever it is. */
  lemma {:induction false} GetNameSubst(t: string, x: int, y: int, z: int)
    requires NoBraces(t)
    ensures GetName(t, x, y, z) == SubstXYZ(t, IntToDec(x), IntToDec(y), IntToDec(z))
    decreases |t|
  {
    var args := [IntToDec(x), IntToDec(y), IntToDec(z)];
    if t != [] {
      var c, rest := t[0], t[1..];
      assert t == [c] + rest;
      var prest := NamePlaceholders(rest);
      NamePlaceholdersCons(c, rest);
      NamePlaceholdersChar(c);
      GetNameSubst(rest, x, y, z);
      assert Format(prest, args) == SubstXYZ(rest, args[0], args[1], args[2]);
      if c == 'x' {
        FormatPlaceholder(0, prest, args);
      } else if c == 'y' {
        FormatPlaceholder(1, prest, args);
      } else if c == 'z' {
        FormatPlaceholder(2, prest, args);
      } else {
        FormatPlainChar(c, prest, args);
      }
    }
  }

  /** Substitution distributes over concatenation. */
  lemma {:induction false} SubstXYZAppend(a: string, b: string, sx: string, sy: string, sz: string)
    ensures SubstXYZ(a + b, sx, sy, sz) == SubstXYZ(a, sx, sy, sz) + SubstXYZ(b, sx, sy, sz)
    decreases |a|
  {
    if a != [] {
      assert (a + b)[1..] == a[1..] + b;
      SubstXYZAppend(a[1..], b, sx, sy, sz);
    } else {
      assert a + b == b;
    }
  }

  /** A template without x, y and z is a fixed point of the substitution. */
  lemma {:induction false} SubstXYZPlain(t: string, sx: string, sy: string, sz: string)
    requires 'x' !in t && 'y' !in t && 'z' !in t
    ensures SubstXYZ(t, sx, sy, sz) == t
    decreases |t|
  {
    if t != [] {
      assert t == [t[0]] + t[1..];
      SubstXYZPlain(t[1..], sx, sy, sz);
    }
  }

  lemma SubstXYZOne(c: char, sx: string, sy: string, sz: string)
    ensures SubstXYZ([c], sx, sy, sz) == if c == 'x' then sx else if c == 'y' then sy else if c == 'z' then sz else [c]
  {
    assert [c][1..] == [];
  }

  /** The class template "HexCer dx:y" (LipidGeneratorNode.cs:203) also
      rewrites the x of "Hex": x carbons and y double bonds give
      "He" x "Cer d" x ":" y, e.g. "He34Cer d34:1". */
  lemma HexCerName(x: int, y: int, z: int)
    ensures GetName("HexCer dx:y", x, y, z) == "He" + (IntToDec(x) + ("Cer d" + (IntToDec(x) + (":" + IntToDec(y)))))
  {
    GetNameSubst("HexCer dx:y", x, y, z);
    HexCerSubst(IntToDec(x), IntToDec(y), IntToDec(z));
  }

  lemma HexPlain(sx: string, sy: string, sz: string)
    ensures SubstXYZ("He", sx, sy, sz) == "He"
  {
    SubstXYZPlain("He", sx, sy, sz);
  }

  lemma CerPlain(sx: string, sy: string, sz: string)
    ensures SubstXYZ("Cer d", sx, sy, sz) == "Cer d"
  {
    SubstXYZPlain("Cer d", sx, sy, sz);
  }

  lemma HexCerSubst(sx: string, sy: string, sz: string)
    ensures SubstXYZ("HexCer dx:y", sx, sy, sz) == "He" + (sx + ("Cer d" + (sx + (":" + sy))))
  {
    var xy := [':'] + ['y'];
    var tail := ['x'] + xy;
    var mid := "Cer d" + tail;
    assert "HexCer dx:y" == "He" + (['x'] + mid);
    SubstXYZAppend("He", ['x'] + mid, sx, sy, sz);
    HexPlain(sx, sy, sz);
    CerPlain(sx, sy, sz);
    SubstXYZAppend(['x'], mid, sx, sy, sz);
    SubstXYZAppend("Cer d", tail, sx, sy, sz);
    SubstXYZAppend(['x'], xy, sx, sy, sz);
    SubstXYZAppend([':'], ['y'], sx, sy, sz);
    SubstXYZOne('x', sx, sy, sz);
    SubstXYZOne(':', sx, sy, sz);
    SubstXYZOne('y', sx, sy, sz);
  }

  // getMolComp: r1..r4 become the placeholders {0}..{3}, then String.Format.

  /** The replacement for radical k (1 to 4): "rk" becomes "{k-1}". */
  function RadicalStep(k: nat, s: string): string
    requires 1 <= k <= 4
  {
    ReplaceAll(s, ['r', DigitChar(k)], Placeholder(k - 1))
  }

  /** The first n radical replacements, in the order r1, r2, r3, r4. */
  function RadicalSteps(n: nat, s: string): string
    requires n <= 4
  {
    if n == 0 then s else RadicalStep(n, RadicalSteps(n - 1, s))
  }

  /** getMolComp (LipidGeneratorNode.cs:557-565). */
  function GetMolComp(t: string, r1: string, r2: string, r3: string, r4: string): string
    requires NoBraces(t)
  {
    Format(RadicalSteps(4, t), [r1, r2, r3, r4])
  }

  /** The radical number that t starts with, if it starts with r1, r2, r3 or r4. */
  predicate StartsWithRadical(t: string)
  {
    |t| >= 2 && t[0] == 'r' && '1' <= t[1] <= '4'
  }

  /** Reference definition: each r1..r4 of the template is replaced by the
      corresponding radical name in one left-to-right pass. */
  function SubstRadicals(t: string, names: seq<string>): string
    requires |names| == 4
    decreases |t|
  {
    if t == [] then []
    else if StartsWithRadical(t) then names[t[1] as int - '1' as int] + SubstRadicals(t[2..], names)
    else [t[0]] + SubstRadicals(t[1..], names)
  }

  /** Placeholder form of SubstRadicals. */
  function RadicalPlaceholders(t: string): string
    decreases |t|
  {
    if t == [] then []
    else if StartsWithRadical(t) then Placeholder(t[1] as int - '1' as int) + RadicalPlaceholders(t[2..])
    else [t[0]] + RadicalPlaceholders(t[1..])
  }

  /** Replacing a two-character pattern: a first character that does not start
      an occurrence is copied. */
  lemma ReplaceHeadTwo(c: char, w: string, pat: string, rep: string)
    requires |pat| == 2
    requires !(c == pat[0] && |w| > 0 && w[0] == pat[1])
    ensures ReplaceAll([c] + w, pat, rep) == [c] + ReplaceAll(w, pat, rep)
  {
    var s := [c] + w;
    assert s[1..] == w;
    if |s| >= 2 {
      assert s[..2] == [c, w[0]];
    }
  }

  /** The first character after a replacement is the old first character or
      the first character of the replacement. */
  lemma ReplaceHead(w: string, pat: string, rep: string)
    requires pat != [] && |w| > 0 && |rep| > 0
    ensures var r := ReplaceAll(w, pat, rep); |r| > 0 && (r[0] == w[0] || r[0] == rep[0])
  {
  }

  lemma {:induction false} RadicalStepsEmpty(n: nat)
    requires n <= 4
    ensures RadicalSteps(n, []) == []
  {
    if n > 0 {
      RadicalStepsEmpty(n - 1);
    }
  }

  lemma {:induction false} RadicalStepsHead(n: nat, u: string)
    requires n <= 4 && |u| > 0
    ensures var r := RadicalSteps(n, u); |r| > 0 && (r[0] == u[0] || r[0] == '{')
  {
    if n > 0 {
      RadicalStepsHead(n - 1, u);
      ReplaceHead(RadicalSteps(n - 1, u), ['r', DigitChar(n)], Placeholder(n - 1));
    }
  }

  /** A character that does not start a radical is copied by every step. */
  lemma {:induction false} RadicalStepsPlain(n: nat, c: char, u: string)
    requires n <= 4
    requires !(c == 'r' && |u| > 0 && '1' <= u[0] <= '4')
    ensures RadicalSteps(n, [c] + u) == [c] + RadicalSteps(n, u)
  {
    if n > 0 {
      RadicalStepsPlain(n - 1, c, u);
      var w := RadicalSteps(n - 1, u);
      if |u| > 0 {
        RadicalStepsHead(n - 1, u);
      } else {
        RadicalStepsEmpty(n - 1);
      }
      assert '1' <= DigitChar(n) <= '4';
      ReplaceHeadTwo(c, w, ['r', DigitChar(n)], Placeholder(n - 1));
    }
  }

  /** What the first m steps make of the radical "rk". */
  function RadicalHead(k: nat, m: nat): string
    requires 1 <= k <= 4
  {
    if k <= m then Placeholder(k - 1) else ['r', DigitChar(k)]
  }

  /** Step n applied to what the first n - 1 steps made of "rk". */
  lemma RadicalHeadStep(n: nat, k: nat, w: string)
    requires 1 <= n <= 4 && 1 <= k <= 4
    ensures ReplaceAll(RadicalHead(k, n - 1) + w, ['r', DigitChar(n)], Placeholder(n - 1))
      == RadicalHead(k, n) + ReplaceAll(w, ['r', DigitChar(n)], Placeholder(n - 1))
  {
    var pat := ['r', DigitChar(n)];
    var rep := Placeholder(n - 1);
    if k <= n - 1 {
      ReplaceSkipsPrefix(Placeholder(k - 1), w, pat, rep);
    } else if k == n {
      ReplaceAtFront(w, pat, rep);
    } else {
      assert ['r', DigitChar(k)] + w == ['r'] + ([DigitChar(k)] + w);
      ReplaceHeadTwo('r', [DigitChar(k)] + w, pat, rep);
      ReplaceSkipsPrefix([DigitChar(k)], w, pat, rep);
      assert ['r'] + ([DigitChar(k)] + ReplaceAll(w, pat, rep)) == ['r', DigitChar(k)] + ReplaceAll(w, pat, rep);
    }
  }

  /** A radical "rk" is turned into its placeholder by step k and left alone
      by the others. */
  lemma {:induction false} RadicalStepsRadical(n: nat, k: nat, u: string)
    requires n <= 4 && 1 <= k <= 4
    ensures RadicalSteps(n, ['r', DigitChar(k)] + u) == RadicalHead(k, n) + RadicalSteps(n, u)
  {
    if n > 0 {
      var v := ['r', DigitChar(k)] + u;
      RadicalStepsRadical(n - 1, k, u);
      var w := RadicalSteps(n - 1, u);
      assert RadicalSteps(n, v) == RadicalStep(n, RadicalHead(k, n - 1) + w);
      assert RadicalSteps(n, u) == RadicalStep(n, w);
      RadicalHeadStep(n, k, w);
    }
  }

  lemma {:induction false} RadicalStepsSpec(t: string)
    ensures RadicalSteps(4, t) == RadicalPlaceholders(t)
    decreases |t|
  {
    if t == [] {
      RadicalStepsEmpty(4);
    } else {
      if StartsWithRadical(t) {
        var k := t[1] as int - '0' as int;
        assert DigitChar(k) == t[1];
        assert t == ['r', DigitChar(k)] + t[2..];
        RadicalStepsRadical(4, k, t[2..]);
        RadicalStepsSpec(t[2..]);
      } else {
        assert t == [t[0]] + t[1..];
        RadicalStepsPlain(4, t[0], t[1..]);
        RadicalStepsSpec(t[1..]);
      }
    }
  }

  lemma {:induction false} FormatRadicals(t: string, names: seq<string>)
    requires NoBraces(t) && |names| == 4
    ensures Format(RadicalPlaceholders(t), names) == SubstRadicals(t, names)
    decreases |t|
  {
    if t != [] {
      if StartsWithRadical(t) {
        FormatRadicals(t[2..], names);
        FormatPlaceholder(t[1] as int - '1' as int, RadicalPlaceholders(t[2..]), names);
      } else {
        FormatRadicals(t[1..], names);
        FormatPlainChar(t[0], RadicalPlaceholders(t[1..]), names);
      }
    }
  }

  /** getMolComp equals one left-to-right substitution of r1..r4 by the
      radical names: the four sequential replacements cannot interfere. */
  lemma GetMolCompSubst(t: string, r1: string, r2: string, r3: string, r4: string)
    requires NoBraces(t)
    ensures GetMolComp(t, r1, r2, r3, r4) == SubstRadicals(t, [r1, r2, r3, r4])
  {
    RadicalStepsSpec(t);
    FormatRadicals(t, [r1, r2, r3, r4]);
  }

  // getElemCompFA

  /** The template fragment for the hydrogens of a fatty acyl, 2 (x - y). */
  const HydrogenTerm := "(x-y)*2"

  /** getElemCompFA (LipidGeneratorNode.cs:510-521). */
  function GetElemCompFA(t: string, x: int, y: int, z: int): string
  {
    var s1 := ReplaceAll(t, HydrogenTerm, IntToDec((x - y) * 2));
    var s2 := ReplaceAll(s1, "x", IntToDec(x));
    var s3 := ReplaceAll(s2, "y", IntToDec(y));
    var s4 := ReplaceAll(s3, "z", IntToDec(z));
    var s5 := ReplaceAll(s4, " + ", "");
    var s6 := ReplaceAll(s5, "*", "");
    ToUpper(s6)
  }

  /** A formula in normal form: upper case, without '*' or '+'. */
  predicate Normalized(s: string) { NoLower(s) && '*' !in s && '+' !in s }

  /** The rendered formula never holds a '*' or a lower-case letter. */
  lemma ElemCompFAClean(t: string, x: int, y: int, z: int)
    ensures var r := GetElemCompFA(t, x, y, z); '*' !in r && NoLower(r)
  {
    var s5 := ReplaceAll(ReplaceAll(ReplaceAll(ReplaceAll(ReplaceAll(t, HydrogenTerm, IntToDec((x - y) * 2)),
      "x", IntToDec(x)), "y", IntToDec(y)), "z", IntToDec(z)), " + ", "");
    var s6 := ReplaceAll(s5, "*", "");
    RemoveCharGone(s5, '*');
    ToUpperSpec(s6);
    var r := ToUpper(s6);
    forall i | 0 <= i < |r| ensures r[i] != '*' {
      assert s6[i] in s6;
    }
  }

  /** A pattern that has a character missing from s does not occur in it. */
  lemma {:induction false} ReplaceMissingChar(s: string, pat: string, rep: string, k: nat)
    requires k < |pat| && pat[k] !in s
    ensures ReplaceAll(s, pat, rep) == s
    decreases |s|
  {
    if |s| >= |pat| {
      assert s[..|pat|][k] == s[k];
      ReplaceMissingChar(s[1..], pat, rep, k);
    }
  }

  /** Rendering a formula that is already in normal form returns it unchanged,
      which is why the second getElemCompFA on a combined formula is harmless. */
  lemma ElemCompFAIdentity(s: string, x: int, y: int, z: int)
    requires Normalized(s)
    ensures GetElemCompFA(s, x, y, z) == s
  {
    ReplaceMissingChar(s, HydrogenTerm, IntToDec((x - y) * 2), 1);
    ReplaceMissingChar(s, "x", IntToDec(x), 0);
    ReplaceMissingChar(s, "y", IntToDec(y), 0);
    ReplaceMissingChar(s, "z", IntToDec(z), 0);
    ReplaceMissingChar(s, " + ", "", 1);
    ReplaceMissingChar(s, "*", "", 0);
    ToUpperIdentity(s);
  }

  /** One pass over "  + + " removes the middle " + " only. */
  lemma SeparatorPass()
    ensures ReplaceAll("  + + ", " + ", "") == " + "
  {
    var s := "  + + ";
    assert s[..3][1] == ' ' != " + "[1];
    assert s[1..] == " + " + "+ ";
    ReplaceAtFront("+ ", " + ", "");
    ReplaceShort("+ ", " + ", "");
  }

  /** The one-pass removal of " + " can leave a " + " behind, whatever the indices. */
  lemma SeparatorCanSurvive(x: int, y: int, z: int)
    ensures GetElemCompFA("  + + ", x, y, z) == " + "
  {
    ElemCompFAConstant("  + + ", x, y, z);
    SeparatorPass();
    ReplaceMissingChar(" + ", "*", "", 0);
    ToUpperIdentity(" + ");
  }

  // Rendering the two building-block formulas of the generator

  /** Removing " + " after a chunk without blanks. */
  lemma SkipSeparator(a: string, b: string)
    requires ' ' !in a
    ensures ReplaceAll(a + (" + " + b), " + ", "") == a + ReplaceAll(b, " + ", "")
  {
    ReplaceSkipsPrefix(a, " + " + b, " + ", "");
    ReplaceAtFront(b, " + ", "");
  }

  /** The fatty-acyl template "c*x + h*(x-y)*2 + o*2" (LipidGeneratorNode.cs:150):
      after the hydrogen term is replaced. */
  lemma FattyAcylStepHydrogen(hx: string)
    ensures ReplaceAll("c*x + h*(x-y)*2 + o*2", HydrogenTerm, hx) == "c*x + h*" + (hx + " + o*2")
  {
    FattyAcylTemplateSplit();
    HydrogenHead(HydrogenTerm + " + o*2", hx);
    HydrogenTail(hx);
  }

  lemma FattyAcylTemplateSplit()
    ensures "c*x + h*(x-y)*2 + o*2" == "c*x + h*" + (HydrogenTerm + " + o*2")
  {
  }

  lemma HydrogenHead(t: string, hx: string)
    ensures ReplaceAll("c*x + h*" + t, HydrogenTerm, hx) == "c*x + h*" + ReplaceAll(t, HydrogenTerm, hx)
  {
    ReplaceSkipsPrefix("c*x + h*", t, HydrogenTerm, hx);
  }

  lemma HydrogenTail(hx: string)
    ensures ReplaceAll(HydrogenTerm + " + o*2", HydrogenTerm, hx) == hx + " + o*2"
  {
    ReplaceAtFront(" + o*2", HydrogenTerm, hx);
    ReplaceAbsent(" + o*2", HydrogenTerm, hx);
  }

  /** ... after x is replaced by sx. */
  lemma FattyAcylStepX(sx: string, hx: string)
    requires 'x' !in hx
    ensures ReplaceAll("c*x + h*" + (hx + " + o*2"), "x", sx) == "c*" + (sx + (" + h*" + (hx + " + o*2")))
  {
    var tail := " + h*" + (hx + " + o*2");
    FattyAcylShapeX(hx);
    ReplaceCharAppend("c*", "x" + tail, 'x', sx);
    ReplaceCharAppend("x", tail, 'x', sx);
    FattyAcylHeadX(sx);
    FattyAcylTailX(sx, hx);
  }

  lemma FattyAcylHeadX(sx: string)
    ensures ReplaceAll("c*", "x", sx) == "c*" && ReplaceAll("x", "x", sx) == sx
  {
    ReplaceAbsent("c*", "x", sx);
    ReplaceAtFront("", "x", sx);
    assert "x" + "" == "x" && sx + "" == sx;
  }

  lemma FattyAcylTailX(sx: string, hx: string)
    requires 'x' !in hx
    ensures ReplaceAll(" + h*" + (hx + " + o*2"), "x", sx) == " + h*" + (hx + " + o*2")
  {
    ReplaceAbsent(" + h*" + (hx + " + o*2"), "x", sx);
  }

  lemma FattyAcylShapeX(hx: string)
    ensures "c*x + h*" + (hx + " + o*2") == "c*" + ("x" + (" + h*" + (hx + " + o*2")))
  {
    assert "c*x + h*" == "c*" + ("x" + " + h*");
  }

  lemma FattyAcylShapeTerms(sx: string, hx: string)
    ensures "c*" + (sx + (" + h*" + (hx + " + o*2"))) == ("c*" + sx) + (" + " + (("h*" + hx) + (" + " + "o*2")))
  {
    assert "h*" + (hx + " + o*2") == ("h*" + hx) + (" + " + "o*2");
  }

  /** Three terms joined by " + " lose their separators. */
  lemma ThreeTerms(a: string, b: string, c: string)
    requires ' ' !in a && ' ' !in b && ' ' !in c
    ensures ReplaceAll(a + (" + " + (b + (" + " + c))), " + ", "") == a + (b + c)
  {
    SkipSeparator(a, b + (" + " + c));
    SkipSeparator(b, c);
    ReplaceAbsent(c, " + ", "");
  }

  /** ... after the stars are removed. */
  lemma FattyAcylStepStars(sx: string, hx: string)
    requires '*' !in sx && '*' !in hx
    ensures ReplaceAll(("c*" + sx) + (("h*" + hx) + "o*2"), "*", "") == ("c" + sx) + (("h" + hx) + "o2")
  {
    ReplaceCharAppend("c*" + sx, ("h*" + hx) + "o*2", '*', "");
    ReplaceCharAppend("c*", sx, '*', "");
    ReplaceCharAppend("h*" + hx, "o*2", '*', "");
    ReplaceCharAppend("h*", hx, '*', "");
    StarPieces();
    ReplaceAbsent(sx, "*", "");
    ReplaceAbsent(hx, "*", "");
  }

  lemma StarPieces()
    ensures ReplaceAll("c*", "*", "") == "c" && ReplaceAll("h*", "*", "") == "h" && ReplaceAll("o*2", "*", "") == "o2"
  {
    ReplaceSkipsPrefix("c", "*", "*", "");
    ReplaceSkipsPrefix("h", "*", "*", "");
    ReplaceSkipsPrefix("o", "*2", "*", "");
    ReplaceAtFront("", "*", "");
    ReplaceAtFront("2", "*", "");
    ReplaceAbsent("2", "*", "");
    assert "*" + "" == "*";
    assert "o*2" == "o" + "*2";
    assert "c*" == "c" + "*";
    assert "h*" == "h" + "*";
  }

  /** ... after the letters are raised. */
  lemma FattyAcylStepUpper(sx: string, hx: string)
    requires NoLower(sx) && NoLower(hx)
    ensures ToUpper(("c" + sx) + (("h" + hx) + "o2")) == ("C" + sx) + (("H" + hx) + "O2")
  {
    ToUpperAppend("c" + sx, ("h" + hx) + "o2");
    ToUpperAppend("c", sx);
    ToUpperAppend("h" + hx, "o2");
    ToUpperAppend("h", hx);
    ToUpperIdentity(sx);
    ToUpperIdentity(hx);
    assert ToUpper("o2") == "O2";
  }

  /** The substitution steps of getElemCompFA on the fatty-acyl template, for
      any printed hydrogen count hx and printed indices sx, sy, sz. */
  lemma FattyAcylSubstitutions(sx: string, sy: string, sz: string, hx: string)
    requires DecChars(sx) && DecChars(hx)
    ensures ReplaceAll(ReplaceAll(ReplaceAll(ReplaceAll("c*x + h*(x-y)*2 + o*2", HydrogenTerm, hx), "x", sx), "y", sy), "z", sz)
      == "c*" + (sx + (" + h*" + (hx + " + o*2")))
  {
    DecCharsExclude(hx, 'x');
    FattyAcylStepHydrogen(hx);
    FattyAcylStepX(sx, hx);
    FattyAcylNoYZ(sx, sy, sz, hx);
  }

  lemma FattyAcylNoYZ(sx: string, sy: string, sz: string, hx: string)
    requires DecChars(sx) && DecChars(hx)
    ensures var s2 := "c*" + (sx + (" + h*" + (hx + " + o*2")));
      ReplaceAll(ReplaceAll(s2, "y", sy), "z", sz) == s2
  {
    DecCharsExclude(hx, 'y');
    DecCharsExclude(hx, 'z');
    DecCharsExclude(sx, 'y');
    DecCharsExclude(sx, 'z');
    var s2 := "c*" + (sx + (" + h*" + (hx + " + o*2")));
    assert 'y' !in s2 && 'z' !in s2;
    ReplaceAbsent(s2, "y", sy);
    ReplaceAbsent(s2, "z", sz);
  }

  /** The clean-up steps of getElemCompFA on the substituted fatty-acyl template. */
  lemma FattyAcylCleanup(sx: string, hx: string)
    requires DecChars(sx) && DecChars(hx)
    ensures ToUpper(ReplaceAll(ReplaceAll("c*" + (sx + (" + h*" + (hx + " + o*2"))), " + ", ""), "*", ""))
      == ("C" + sx) + (("H" + hx) + "O2")
  {
    DecCharsExclude(hx, ' ');
    DecCharsExclude(hx, '*');
    DecCharsExclude(sx, ' ');
    DecCharsExclude(sx, '*');
    FattyAcylShapeTerms(sx, hx);
    ThreeTerms("c*" + sx, "h*" + hx, "o*2");
    FattyAcylStepStars(sx, hx);
    FattyAcylStepUpper(sx, hx);
  }

  /** The fatty-acyl formula: x carbons, 2 (x - y) hydrogens and two oxygens,
      e.g. "C18H34O2" for x = 18, y = 1. */
  lemma FattyAcylFormula(x: int, y: int, z: int)
    ensures GetElemCompFA("c*x + h*(x-y)*2 + o*2", x, y, z)
      == ("C" + IntToDec(x)) + (("H" + IntToDec((x - y) * 2)) + "O2")
  {
    IntToDecChars(x);
    IntToDecChars((x - y) * 2);
    FattyAcylSubstitutions(IntToDec(x), IntToDec(y), IntToDec(z), IntToDec((x - y) * 2));
    FattyAcylCleanup(IntToDec(x), IntToDec((x - y) * 2));
  }

  /** Four terms joined by " + " lose their separators. */
  lemma FourTerms(a: string, b: string, c: string, d: string)
    requires ' ' !in a && ' ' !in b && ' ' !in c && ' ' !in d
    ensures ReplaceAll(a + (" + " + (b + (" + " + (c + (" + " + d))))), " + ", "") == a + (b + (c + d))
  {
    SkipSeparator(a, b + (" + " + (c + (" + " + d))));
    ThreeTerms(b, c, d);
  }

  /** The printed counts of the 16-carbon saturated fatty acyl. */
  lemma PalmitateCounts(x: int, y: int)
    requires x == 16 && y == 0
    ensures ("C" + IntToDec(x)) + (("H" + IntToDec((x - y) * 2)) + "O2") == "C16H32O2"
  {
    TwoDigitDec(x);
    TwoDigitDec((x - y) * 2);
  }

  /** The fatty acyl with 16 carbons and no double bond renders as C16H32O2
      (stated for x and y equal to 16 and 0, so that the verifier does not
      evaluate the replacements on literals). */
  lemma Palmitate(x: int, y: int)
    requires x == 16 && y == 0
    ensures GetElemCompFA("c*x + h*(x-y)*2 + o*2", x, y, 0) == "C16H32O2"
  {
    FattyAcylFormula(x, y, 0);
    PalmitateCounts(x, y);
  }

  /** A template without '(', x, y and z is left alone by the substitution
      steps of getElemCompFA. */
  lemma NoSubstitutions(t: string, hx: string, sx: string, sy: string, sz: string)
    requires '(' !in t && 'x' !in t && 'y' !in t && 'z' !in t
    ensures ReplaceAll(ReplaceAll(ReplaceAll(ReplaceAll(t, HydrogenTerm, hx), "x", sx), "y", sy), "z", sz) == t
  {
    ReplaceMissingChar(t, HydrogenTerm, hx, 0);
    ReplaceAbsent(t, "x", sx);
    ReplaceAbsent(t, "y", sy);
    ReplaceAbsent(t, "z", sz);
  }

  lemma SphingoidStarPieces()
    ensures ReplaceAll("c*18", "*", "") == "c18" && ReplaceAll("h*35", "*", "") == "h35" && ReplaceAll("o*1", "*", "") == "o1"
  {
    StarPiece('c', '*', "18", "");
    StarPiece('h', '*', "35", "");
    StarPiece('o', '*', "1", "");
    assert "c*18" == ['c'] + (['*'] + "18") && "c18" == ['c'] + ("" + "18");
    assert "h*35" == ['h'] + (['*'] + "35") && "h35" == ['h'] + ("" + "35");
    assert "o*1" == ['o'] + (['*'] + "1") && "o1" == ['o'] + ("" + "1");
  }

  /** An element letter, a star and a count lose the star (stated for any
      single-character pattern c, here the star). */
  lemma StarPiece(e: char, c: char, count: string, rep: string)
    requires e != c && c !in count
    ensures ReplaceAll([e] + ([c] + count), [c], rep) == [e] + (rep + count)
  {
    ReplaceAbsent(count, [c], rep);
    ReplaceAtFront(count, [c], rep);
    ReplaceSkipsPrefix([e], [c] + count, [c], rep);
  }

  /** A template without '(', x, y and z renders the same for all indices:
      only the clean-up steps act on it. */
  lemma ElemCompFAConstant(t: string, x: int, y: int, z: int)
    requires '(' !in t && 'x' !in t && 'y' !in t && 'z' !in t
    ensures GetElemCompFA(t, x, y, z) == ToUpper(ReplaceAll(ReplaceAll(t, " + ", ""), "*", ""))
  {
    NoSubstitutions(t, IntToDec((x - y) * 2), IntToDec(x), IntToDec(y), IntToDec(z));
  }

  lemma SphingoidSeparators()
    ensures ReplaceAll("c*18" + (" + " + ("h*35" + (" + " + ("o*1" + (" + " + "n"))))), " + ", "")
      == "c*18" + ("h*35" + ("o*1" + "n"))
  {
    FourTerms("c*18", "h*35", "o*1", "n");
  }

  lemma SphingoidStars()
    ensures ReplaceAll("c*18" + ("h*35" + ("o*1" + "n")), "*", "") == "c18" + ("h35" + ("o1" + "n"))
  {
    ReplaceCharAppend("c*18", "h*35" + ("o*1" + "n"), '*', "");
    ReplaceCharAppend("h*35", "o*1" + "n", '*', "");
    ReplaceCharAppend("o*1", "n", '*', "");
    SphingoidStarPieces();
    ReplaceAbsent("n", "*", "");
  }

  lemma SphingoidUpper()
    ensures ToUpper("c18" + ("h35" + ("o1" + "n"))) == "C18H35O1N"
  {
    ToUpperAppend("c18", "h35" + ("o1" + "n"));
    ToUpperAppend("h35", "o1" + "n");
    ToUpperAppend("o1", "n");
  }

  /** The sphingoid-base template "c*18 + h*35 + o*1 + n" (LipidGeneratorNode.cs:151),
      written here term by term, renders as "C18H35O1N" whatever the indices. */
  lemma SphingoidFormula(x: int, y: int, z: int)
    ensures GetElemCompFA("c*18" + (" + " + ("h*35" + (" + " + ("o*1" + (" + " + "n"))))), x, y, z) == "C18H35O1N"
  {
    ElemCompFAConstant("c*18" + (" + " + ("h*35" + (" + " + ("o*1" + (" + " + "n"))))), x, y, z);
    SphingoidSeparators();
    SphingoidStars();
    SphingoidUpper();
  }
}
