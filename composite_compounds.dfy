/** Composite compounds and their lists (LipidGeneratorNode.cs:346-430): a
    lipid class combines up to four building blocks, one from each of four
    named collections; when two neighbouring slots name the same collection
    the inner index never passes the outer one, so each unordered
    combination is produced once. */
module CompositeCompounds {
  import opened Text
  import opened ExtractInfo
  import opened BuildingBlocks

  /** CompositeCompound (LipidGeneratorNode.cs:346-352), without its mass. */
  datatype CompositeCompound = CompositeCompound(kind: string, sumComp: string, molComp: string, composition: string)

  /** The table arguments of the CompositeCompoundList constructor
      (LipidGeneratorNode.cs:375); constPart is accepted and never used. */
  datatype ClassDef = ClassDef(
    kind: string, sumTemplate: string, molTemplate: string, toDelete: string,
    constPart: string, constMod: string, r1: string, r2: string, r3: string, r4: string)

  /** The building-block collections, by key (allBB in GenerateLipids). */
  type Collections = map<string, seq<BuildingBlock>>

  /** What the constructor needs not to throw: the four keys are in the
      dictionary, String.Format accepts both templates, and String.Replace
      gets a non-empty token to delete. */
  predicate ClassOk(c: ClassDef, bb: Collections)
  {
    c.r1 in bb && c.r2 in bb && c.r3 in bb && c.r4 in bb
    && NoBraces(c.sumTemplate) && NoBraces(c.molTemplate) && c.toDelete != []
  }

  // ---------------------------------------------------------------------
  // The index quadruples the four nested loops visit
  // ---------------------------------------------------------------------

  /** The sizes of the four lists and which neighbouring slots share a key. */
  datatype Shape = Shape(n1: nat, n2: nat, n3: nat, n4: nat, same12: bool, same23: bool, same34: bool)

  /** Slots that share a key share a list, so they have the same size. */
  predicate ShapeOk(s: Shape)
  {
    (s.same12 ==> s.n1 == s.n2) && (s.same23 ==> s.n2 == s.n3) && (s.same34 ==> s.n3 == s.n4)
  }

  /** limitR1R2, limitR2R3 and limitR3R4 (LipidGeneratorNode.cs:386-410). */
  function Limit(same: bool, outer: nat, n: nat): nat
  {
    if same then outer + 1 else n
  }

  /** One visit of the innermost loop body: indices into R1..R4. */
  datatype Pick = Pick(i: nat, j: nat, g: nat, f: nat)

  /** The quadruples the loops reach: each inner index below its limit. */
  predicate Admissible(s: Shape, p: Pick)
  {
    p.i < s.n1 && p.j < Limit(s.same12, p.i, s.n2)
    && p.g < Limit(s.same23, p.j, s.n3) && p.f < Limit(s.same34, p.g, s.n4)
  }

  /** Every index is inside its list. */
  predicate InBounds(s: Shape, p: Pick)
  {
    p.i < s.n1 && p.j < s.n2 && p.g < s.n3 && p.f < s.n4
  }

  /** R1[i], R2[j], R3[g] and R4[f] never index past Count. */
  lemma AdmissibleInBounds(s: Shape, p: Pick)
    requires ShapeOk(s) && Admissible(s, p)
    ensures InBounds(s, p)
    ensures s.same12 ==> p.j <= p.i
    ensures s.same23 ==> p.g <= p.j
    ensures s.same34 ==> p.f <= p.g
  {
  }

  /** The innermost loop, for fixed i, j, g. */
  function FPicks(i: nat, j: nat, g: nat, m: nat): (ps: seq<Pick>)
    ensures |ps| == m
    ensures forall k :: 0 <= k < m ==> ps[k] == Pick(i, j, g, k)
  {
    seq(m, (f: int) requires 0 <= f < m => Pick(i, j, g, f))
  }

  lemma FPicksSnoc(i: nat, j: nat, g: nat, m: nat)
    ensures FPicks(i, j, g, m + 1) == FPicks(i, j, g, m) + [Pick(i, j, g, m)]
  {
    assert FPicks(i, j, g, m + 1)[m] == Pick(i, j, g, m);
  }

  /** The third loop, for fixed i and j, g below m. */
  function GPicks(s: Shape, i: nat, j: nat, m: nat): seq<Pick>
    decreases m
  {
    if m == 0 then []
    else GPicks(s, i, j, m - 1) + FPicks(i, j, m - 1, Limit(s.same34, m - 1, s.n4))
  }

  /** The second loop, for fixed i, j below m. */
  function JPicks(s: Shape, i: nat, m: nat): seq<Pick>
    decreases m
  {
    if m == 0 then []
    else JPicks(s, i, m - 1) + GPicks(s, i, m - 1, Limit(s.same23, m - 1, s.n3))
  }

  /** The outer loop, i below m. */
  function IPicks(s: Shape, m: nat): seq<Pick>
    decreases m
  {
    if m == 0 then []
    else IPicks(s, m - 1) + JPicks(s, m - 1, Limit(s.same12, m - 1, s.n2))
  }

  /** Every quadruple the four loops visit, in visiting order. */
  function Picks(s: Shape): seq<Pick>
  {
    IPicks(s, s.n1)
  }

  // Membership: the loops visit exactly the admissible quadruples.

  lemma {:induction false} GPicksSound(s: Shape, i: nat, j: nat, m: nat, p: Pick)
    requires p in GPicks(s, i, j, m)
    ensures p.i == i && p.j == j && p.g < m && p.f < Limit(s.same34, p.g, s.n4)
    decreases m
  {
    var tail := FPicks(i, j, m - 1, Limit(s.same34, m - 1, s.n4));
    if p in GPicks(s, i, j, m - 1) {
      GPicksSound(s, i, j, m - 1, p);
    } else {
      var k :| 0 <= k < |tail| && tail[k] == p;
    }
  }

  lemma {:induction false} JPicksSound(s: Shape, i: nat, m: nat, p: Pick)
    requires p in JPicks(s, i, m)
    ensures p.i == i && p.j < m && p.g < Limit(s.same23, p.j, s.n3) && p.f < Limit(s.same34, p.g, s.n4)
    decreases m
  {
    if p in JPicks(s, i, m - 1) {
      JPicksSound(s, i, m - 1, p);
    } else {
      GPicksSound(s, i, m - 1, Limit(s.same23, m - 1, s.n3), p);
    }
  }

  lemma {:induction false} IPicksSound(s: Shape, m: nat, p: Pick)
    requires p in IPicks(s, m)
    ensures p.i < m && p.j < Limit(s.same12, p.i, s.n2)
    ensures p.g < Limit(s.same23, p.j, s.n3) && p.f < Limit(s.same34, p.g, s.n4)
    decreases m
  {
    if p in IPicks(s, m - 1) {
      IPicksSound(s, m - 1, p);
    } else {
      JPicksSound(s, m - 1, Limit(s.same12, m - 1, s.n2), p);
    }
  }

  lemma {:induction false} GPicksComplete(s: Shape, i: nat, j: nat, m: nat, p: Pick)
    requires p.i == i && p.j == j && p.g < m && p.f < Limit(s.same34, p.g, s.n4)
    ensures p in GPicks(s, i, j, m)
    decreases m
  {
    var front, tail := GPicks(s, i, j, m - 1), FPicks(i, j, m - 1, Limit(s.same34, m - 1, s.n4));
    assert GPicks(s, i, j, m) == front + tail;
    if p.g == m - 1 {
      assert tail[p.f] == p;
      assert p in tail;
    } else {
      GPicksComplete(s, i, j, m - 1, p);
      assert p in front;
    }
  }

  lemma {:induction false} JPicksComplete(s: Shape, i: nat, m: nat, p: Pick)
    requires p.i == i && p.j < m && p.g < Limit(s.same23, p.j, s.n3) && p.f < Limit(s.same34, p.g, s.n4)
    ensures p in JPicks(s, i, m)
    decreases m
  {
    var front, tail := JPicks(s, i, m - 1), GPicks(s, i, m - 1, Limit(s.same23, m - 1, s.n3));
    assert JPicks(s, i, m) == front + tail;
    if p.j == m - 1 {
      GPicksComplete(s, i, p.j, Limit(s.same23, p.j, s.n3), p);
      assert p in tail;
    } else {
      JPicksComplete(s, i, m - 1, p);
      assert p in front;
    }
  }

  lemma {:induction false} IPicksComplete(s: Shape, m: nat, p: Pick)
    requires p.i < m && p.j < Limit(s.same12, p.i, s.n2)
    requires p.g < Limit(s.same23, p.j, s.n3) && p.f < Limit(s.same34, p.g, s.n4)
    ensures p in IPicks(s, m)
    decreases m
  {
    var front, tail := IPicks(s, m - 1), JPicks(s, m - 1, Limit(s.same12, m - 1, s.n2));
    assert IPicks(s, m) == front + tail;
    if p.i == m - 1 {
      JPicksComplete(s, p.i, Limit(s.same12, p.i, s.n2), p);
      assert p in tail;
    } else {
      IPicksComplete(s, m - 1, p);
      assert p in front;
    }
  }

  /** The loops visit a quadruple exactly when it is admissible. */
  lemma PicksMembers(s: Shape, p: Pick)
    ensures p in Picks(s) <==> Admissible(s, p)
  {
    if p in Picks(s) {
      IPicksSound(s, s.n1, p);
    }
    if Admissible(s, p) {
      IPicksComplete(s, s.n1, p);
    }
  }

  // Order: the visits are strictly increasing lexicographically, so no
  // quadruple is visited twice.

  predicate Before(p: Pick, q: Pick)
  {
    p.i < q.i || (p.i == q.i && (p.j < q.j || (p.j == q.j && (p.g < q.g || (p.g == q.g && p.f < q.f)))))
  }

  predicate Increasing(ps: seq<Pick>)
  {
    forall a, b :: 0 <= a < b < |ps| ==> Before(ps[a], ps[b])
  }

  lemma IncreasingAppend(xs: seq<Pick>, ys: seq<Pick>)
    requires Increasing(xs) && Increasing(ys)
    requires forall p, q :: p in xs && q in ys ==> Before(p, q)
    ensures Increasing(xs + ys)
  {
    forall a, b | 0 <= a < b < |xs + ys|
      ensures Before((xs + ys)[a], (xs + ys)[b])
    {
      if b < |xs| {
        assert Before(xs[a], xs[b]);
      } else if a >= |xs| {
        assert Before(ys[a - |xs|], ys[b - |xs|]);
      } else {
        assert xs[a] in xs && ys[b - |xs|] in ys;
      }
    }
  }

  lemma {:induction false} GPicksIncreasing(s: Shape, i: nat, j: nat, m: nat)
    ensures Increasing(GPicks(s, i, j, m))
    decreases m
  {
    if m > 0 {
      GPicksIncreasing(s, i, j, m - 1);
      var tail := FPicks(i, j, m - 1, Limit(s.same34, m - 1, s.n4));
      forall q | q in tail ensures q.i == i && q.j == j && q.g == m - 1 {
        var k :| 0 <= k < |tail| && tail[k] == q;
      }
      forall p | p in GPicks(s, i, j, m - 1) ensures p.i == i && p.j == j && p.g < m - 1 {
        GPicksSound(s, i, j, m - 1, p);
      }
      IncreasingAppend(GPicks(s, i, j, m - 1), tail);
    }
  }

  lemma {:induction false} JPicksIncreasing(s: Shape, i: nat, m: nat)
    ensures Increasing(JPicks(s, i, m))
    decreases m
  {
    if m > 0 {
      JPicksIncreasing(s, i, m - 1);
      GPicksIncreasing(s, i, m - 1, Limit(s.same23, m - 1, s.n3));
      forall p | p in JPicks(s, i, m - 1) ensures p.i == i && p.j < m - 1 {
        JPicksSound(s, i, m - 1, p);
      }
      forall q | q in GPicks(s, i, m - 1, Limit(s.same23, m - 1, s.n3)) ensures q.i == i && q.j == m - 1 {
        GPicksSound(s, i, m - 1, Limit(s.same23, m - 1, s.n3), q);
      }
      IncreasingAppend(JPicks(s, i, m - 1), GPicks(s, i, m - 1, Limit(s.same23, m - 1, s.n3)));
    }
  }

  lemma {:induction false} IPicksIncreasing(s: Shape, m: nat)
    ensures Increasing(IPicks(s, m))
    decreases m
  {
    if m > 0 {
      IPicksIncreasing(s, m - 1);
      JPicksIncreasing(s, m - 1, Limit(s.same12, m - 1, s.n2));
      forall p | p in IPicks(s, m - 1) ensures p.i < m - 1 {
        IPicksSound(s, m - 1, p);
      }
      forall q | q in JPicks(s, m - 1, Limit(s.same12, m - 1, s.n2)) ensures q.i == m - 1 {
        JPicksSound(s, m - 1, Limit(s.same12, m - 1, s.n2), q);
      }
      IncreasingAppend(IPicks(s, m - 1), JPicks(s, m - 1, Limit(s.same12, m - 1, s.n2)));
    }
  }

  /** The loops visit the quadruples in lexicographic order, none twice. */
  lemma PicksIncreasing(s: Shape)
    ensures Increasing(Picks(s))
    ensures forall a, b :: 0 <= a < b < |Picks(s)| ==> Picks(s)[a] != Picks(s)[b]
  {
    IPicksIncreasing(s, s.n1);
  }

  // Counts.

  /** No two neighbouring slots share a key, except over one-element lists. */
  predicate Unpaired(s: Shape)
  {
    (s.same12 ==> s.n2 == 1) && (s.same23 ==> s.n3 == 1) && (s.same34 ==> s.n4 == 1)
  }

  lemma {:induction false} GPicksProduct(s: Shape, i: nat, j: nat, m: nat)
    requires ShapeOk(s) && Unpaired(s) && m <= s.n3
    ensures |GPicks(s, i, j, m)| == m * s.n4
    decreases m
  {
    if m > 0 {
      GPicksProduct(s, i, j, m - 1);
    }
  }

  lemma {:induction false} JPicksProduct(s: Shape, i: nat, m: nat)
    requires ShapeOk(s) && Unpaired(s) && m <= s.n2
    ensures |JPicks(s, i, m)| == m * (s.n3 * s.n4)
    decreases m
  {
    if m > 0 {
      JPicksProduct(s, i, m - 1);
      GPicksProduct(s, i, m - 1, Limit(s.same23, m - 1, s.n3));
      MulStep(m, s.n3 * s.n4);
    }
  }

  lemma {:induction false} IPicksProduct(s: Shape, m: nat)
    requires ShapeOk(s) && Unpaired(s) && m <= s.n1
    ensures |IPicks(s, m)| == m * (s.n2 * (s.n3 * s.n4))
    decreases m
  {
    if m > 0 {
      IPicksProduct(s, m - 1);
      JPicksProduct(s, m - 1, Limit(s.same12, m - 1, s.n2));
      MulStep(m, s.n2 * (s.n3 * s.n4));
    }
  }

  lemma MulStep(m: nat, k: nat)
    requires m > 0
    ensures (m - 1) * k + k == m * k
  {
  }

  /** With no shared neighbouring keys the loops visit the full product. */
  lemma ProductCount(s: Shape)
    requires ShapeOk(s) && Unpaired(s)
    ensures |Picks(s)| == s.n1 * (s.n2 * (s.n3 * s.n4))
  {
    IPicksProduct(s, s.n1);
  }

  /** Slots 1 and 2 share a list of size n and slots 3 and 4 hold one block
      each (the shape of every two-chain class). */
  predicate PairShape(s: Shape)
  {
    s.same12 && !s.same23 && s.n1 == s.n2 && s.n3 == 1 && s.n4 == 1
  }

  lemma {:induction false} IPicksPair(s: Shape, m: nat)
    requires PairShape(s) && m <= s.n1
    ensures 2 * |IPicks(s, m)| == m * (m + 1)
    decreases m
  {
    if m > 0 {
      IPicksPair(s, m - 1);
      assert Limit(s.same12, m - 1, s.n2) == m;
      assert IPicks(s, m) == IPicks(s, m - 1) + JPicks(s, m - 1, m);
      PairRow(s, m);
      PairStep(m);
    }
  }

  /** Row i of a pair shape holds i + 1 visits. */
  lemma PairRow(s: Shape, m: nat)
    requires PairShape(s) && 0 < m <= s.n1
    ensures |JPicks(s, m - 1, m)| == m
  {
    var t := Shape(s.n1, s.n2, 1, 1, false, false, s.same34);
    JPicksProduct(t, m - 1, m);
    JPicksShapeIrrelevant(s, t, m - 1, m);
  }

  lemma PairStep(m: nat)
    requires m > 0
    ensures (m - 1) * m + 2 * m == m * (m + 1)
  {
  }

  lemma {:induction false} JPicksShapeIrrelevant(s: Shape, t: Shape, i: nat, m: nat)
    requires s.n3 == t.n3 && s.n4 == t.n4 && s.same23 == t.same23 && s.same34 == t.same34
    ensures JPicks(s, i, m) == JPicks(t, i, m)
    decreases m
  {
    if m > 0 {
      JPicksShapeIrrelevant(s, t, i, m - 1);
      GPicksShapeIrrelevant(s, t, i, m - 1, Limit(s.same23, m - 1, s.n3));
    }
  }

  lemma {:induction false} GPicksShapeIrrelevant(s: Shape, t: Shape, i: nat, j: nat, m: nat)
    requires s.n4 == t.n4 && s.same34 == t.same34
    ensures GPicks(s, i, j, m) == GPicks(t, i, j, m)
    decreases m
  {
    if m > 0 {
      GPicksShapeIrrelevant(s, t, i, j, m - 1);
    }
  }

  /** Two slots over the same list of n blocks give n(n+1)/2 visits. */
  lemma PairCount(s: Shape)
    requires PairShape(s)
    ensures |Picks(s)| == s.n1 * (s.n1 + 1) / 2
  {
    IPicksPair(s, s.n1);
  }

  // ---------------------------------------------------------------------
  // One compound
  // ---------------------------------------------------------------------

  /** The formula of a compound before rendering (LipidGeneratorNode.cs:414-416):
      the four block formulas and the constant modifier joined by '+', then
      every "+0" removed, then every '+' removed. */
  function CombineFormula(c1: string, c2: string, c3: string, c4: string, m: string): string
  {
    var joined := c1 + ("+" + (c2 + ("+" + (c3 + ("+" + (c4 + ("+" + m)))))));
    ReplaceAll(ReplaceAll(joined, "+0", ""), "+", "")
  }

  /** What the "+0" pass leaves of a formula that follows a '+': the formula
      without its leading '0' (the empty block "0" vanishes entirely). */
  function DropZero(p: string): string
  {
    if |p| > 0 && p[0] == '0' then p[1..] else p
  }

  /** The "+0" pass on a '+' followed by a formula without '+'. */
  function ZeroPiece(p: string): string
  {
    if |p| > 0 && p[0] == '0' then p[1..] else "+" + p
  }

  lemma ZeroStepDrop(p: string, rest: string)
    requires '+' !in p && |p| > 0 && p[0] == '0'
    ensures ReplaceAll("+" + (p + rest), "+0", "") == p[1..] + ReplaceAll(rest, "+0", "")
  {
    assert "+" + (p + rest) == "+0" + (p[1..] + rest);
    ReplaceAtFront(p[1..] + rest, "+0", "");
    ReplaceSkipsPrefix(p[1..], rest, "+0", "");
  }

  lemma ZeroStepKeep(p: string, rest: string)
    requires '+' !in p && !(|p| > 0 && p[0] == '0') && (rest == [] || rest[0] == '+')
    ensures ReplaceAll("+" + (p + rest), "+0", "") == "+" + (p + ReplaceAll(rest, "+0", ""))
  {
    ReplaceHeadTwo('+', p + rest, "+0", "");
    ReplaceSkipsPrefix(p, rest, "+0", "");
  }

  lemma ZeroStep(p: string, rest: string)
    requires '+' !in p && (rest == [] || rest[0] == '+')
    ensures ReplaceAll("+" + (p + rest), "+0", "") == ZeroPiece(p) + ReplaceAll(rest, "+0", "")
  {
    if |p| > 0 && p[0] == '0' {
      ZeroStepDrop(p, rest);
    } else {
      ZeroStepKeep(p, rest);
    }
  }

  lemma PlusPiece(p: string)
    requires '+' !in p
    ensures ReplaceAll(ZeroPiece(p), "+", "") == DropZero(p)
  {
    if |p| > 0 && p[0] == '0' {
      ReplaceAbsent(p[1..], "+", "");
    } else {
      ReplaceAtFront(p, "+", "");
      ReplaceAbsent(p, "+", "");
    }
  }

  /** The "+0" pass over the '+'-led parts after the first. */
  lemma ZeroTail(c2: string, c3: string, c4: string, m: string)
    requires '+' !in c2 && '+' !in c3 && '+' !in c4 && '+' !in m
    ensures ReplaceAll("+" + (c2 + ("+" + (c3 + ("+" + (c4 + ("+" + m)))))), "+0", "")
      == ZeroPiece(c2) + (ZeroPiece(c3) + (ZeroPiece(c4) + ZeroPiece(m)))
  {
    var t4 := "+" + m;
    var t3 := "+" + (c4 + t4);
    var t2 := "+" + (c3 + t3);
    assert t4 == "+" + (m + []);
    ZeroStep(c2, t2);
    ZeroStep(c3, t3);
    ZeroStep(c4, t4);
    ZeroStep(m, []);
    ReplaceShort([], "+0", "");
  }

  /** The "+0" pass over '+'-free parts. */
  lemma ZeroPass(c1: string, c2: string, c3: string, c4: string, m: string)
    requires '+' !in c1 && '+' !in c2 && '+' !in c3 && '+' !in c4 && '+' !in m
    ensures ReplaceAll(c1 + ("+" + (c2 + ("+" + (c3 + ("+" + (c4 + ("+" + m))))))), "+0", "")
      == c1 + (ZeroPiece(c2) + (ZeroPiece(c3) + (ZeroPiece(c4) + ZeroPiece(m))))
  {
    var t1 := "+" + (c2 + ("+" + (c3 + ("+" + (c4 + ("+" + m))))));
    ReplaceSkipsPrefix(c1, t1, "+0", "");
    ZeroTail(c2, c3, c4, m);
  }

  /** The '+' pass after it. */
  lemma PlusPass(c1: string, c2: string, c3: string, c4: string, m: string)
    requires '+' !in c1 && '+' !in c2 && '+' !in c3 && '+' !in c4 && '+' !in m
    ensures ReplaceAll(c1 + (ZeroPiece(c2) + (ZeroPiece(c3) + (ZeroPiece(c4) + ZeroPiece(m)))), "+", "")
      == c1 + (DropZero(c2) + (DropZero(c3) + (DropZero(c4) + DropZero(m))))
  {
    var z4 := ZeroPiece(c4) + ZeroPiece(m);
    var z3 := ZeroPiece(c3) + z4;
    var z2 := ZeroPiece(c2) + z3;
    ReplaceCharAppend(c1, z2, '+', "");
    ReplaceCharAppend(ZeroPiece(c2), z3, '+', "");
    ReplaceCharAppend(ZeroPiece(c3), z4, '+', "");
    ReplaceCharAppend(ZeroPiece(c4), ZeroPiece(m), '+', "");
    ReplaceAbsent(c1, "+", "");
    PlusPiece(c2);
    PlusPiece(c3);
    PlusPiece(c4);
    PlusPiece(m);
  }

  /** With '+'-free parts, the combined formula is the parts concatenated, each
      part after the first losing a leading '0'. */
  lemma CombineFormulaParts(c1: string, c2: string, c3: string, c4: string, m: string)
    requires '+' !in c1 && '+' !in c2 && '+' !in c3 && '+' !in c4 && '+' !in m
    ensures CombineFormula(c1, c2, c3, c4, m) == c1 + (DropZero(c2) + (DropZero(c3) + (DropZero(c4) + DropZero(m))))
  {
    ZeroPass(c1, c2, c3, c4, m);
    PlusPass(c1, c2, c3, c4, m);
  }

  /** The CompositeCompound constructor (LipidGeneratorNode.cs:355-362) with
      getMolComp (366-370). */
  function MakeCompound(kind: string, sumTemplate: string, molTemplate: string, toDelete: string,
                        composition: string, n1: string, n2: string, n3: string, n4: string,
                        x: int, y: int, z: int): CompositeCompound
    requires NoBraces(sumTemplate) && NoBraces(molTemplate) && toDelete != []
  {
    CompositeCompound(kind, GetName(sumTemplate, x, y, z),
      ReplaceAll(GetMolComp(molTemplate, n1, n2, n3, n4), toDelete, ""),
      GetElemCompFA(composition, x, y, z))
  }

  /** The sum name is the template with the summed indices written in, the
      molecular name the template with the block names written in and every
      delete token removed, and the formula the rendered composition, which
      is the composition itself when that is already normalised. */
  lemma MakeCompoundSpec(kind: string, sumTemplate: string, molTemplate: string, toDelete: string,
                         composition: string, n1: string, n2: string, n3: string, n4: string,
                         x: int, y: int, z: int)
    requires NoBraces(sumTemplate) && NoBraces(molTemplate) && toDelete != []
    ensures var c := MakeCompound(kind, sumTemplate, molTemplate, toDelete, composition, n1, n2, n3, n4, x, y, z);
      && c.kind == kind
      && c.sumComp == SubstXYZ(sumTemplate, IntToDec(x), IntToDec(y), IntToDec(z))
      && c.molComp == ReplaceAll(SubstRadicals(molTemplate, [n1, n2, n3, n4]), toDelete, "")
      && '*' !in c.composition && NoLower(c.composition)
      && (Normalized(composition) ==> c.composition == composition)
  {
    MakeCompoundNames(kind, sumTemplate, molTemplate, toDelete, composition, n1, n2, n3, n4, x, y, z);
    MakeCompoundFormula(kind, sumTemplate, molTemplate, toDelete, composition, n1, n2, n3, n4, x, y, z);
  }

  lemma MakeCompoundNames(kind: string, sumTemplate: string, molTemplate: string, toDelete: string,
                          composition: string, n1: string, n2: string, n3: string, n4: string,
                          x: int, y: int, z: int)
    requires NoBraces(sumTemplate) && NoBraces(molTemplate) && toDelete != []
    ensures var c := MakeCompound(kind, sumTemplate, molTemplate, toDelete, composition, n1, n2, n3, n4, x, y, z);
      && c.kind == kind
      && c.sumComp == SubstXYZ(sumTemplate, IntToDec(x), IntToDec(y), IntToDec(z))
      && c.molComp == ReplaceAll(SubstRadicals(molTemplate, [n1, n2, n3, n4]), toDelete, "")
  {
    GetNameSubst(sumTemplate, x, y, z);
    GetMolCompSubst(molTemplate, n1, n2, n3, n4);
  }

  lemma MakeCompoundFormula(kind: string, sumTemplate: string, molTemplate: string, toDelete: string,
                            composition: string, n1: string, n2: string, n3: string, n4: string,
                            x: int, y: int, z: int)
    requires NoBraces(sumTemplate) && NoBraces(molTemplate) && toDelete != []
    ensures var c := MakeCompound(kind, sumTemplate, molTemplate, toDelete, composition, n1, n2, n3, n4, x, y, z);
      && '*' !in c.composition && NoLower(c.composition)
      && (Normalized(composition) ==> c.composition == composition)
  {
    ElemCompFAClean(composition, x, y, z);
    if Normalized(composition) {
      ElemCompFAIdentity(composition, x, y, z);
    }
  }

  /** The sizes and key sharing of a class's four slots. */
  function ShapeOf(c: ClassDef, bb: Collections): (s: Shape)
    requires ClassOk(c, bb)
    ensures ShapeOk(s)
  {
    Shape(|bb[c.r1]|, |bb[c.r2]|, |bb[c.r3]|, |bb[c.r4]|, c.r1 == c.r2, c.r2 == c.r3, c.r3 == c.r4)
  }

  /** The compound the innermost loop body adds for the quadruple p. */
  function CompoundAt(c: ClassDef, bb: Collections, p: Pick): (cc: CompositeCompound)
    requires ClassOk(c, bb) && Admissible(ShapeOf(c, bb), p)
  {
    var b1, b2, b3, b4 := bb[c.r1][p.i], bb[c.r2][p.j], bb[c.r3][p.g], bb[c.r4][p.f];
    MakeCompound(c.kind, c.sumTemplate, c.molTemplate, c.toDelete,
      CombineFormula(b1.composition, b2.composition, b3.composition, b4.composition, c.constMod),
      b1.name, b2.name, b3.name, b4.name,
      b1.x + b2.x + b3.x + b4.x, b1.y + b2.y + b3.y + b4.y, b1.z + b2.z + b3.z + b4.z)
  }

  /** What a compound holds: the class's type, the sum name over the summed
      indices of its four blocks, the molecular name over their names, and,
      when the block formulas and the modifier are normalised, the formulas
      concatenated with the empty block's "0" dropped. */
  lemma CompoundAtSpec(c: ClassDef, bb: Collections, p: Pick)
    requires ClassOk(c, bb) && Admissible(ShapeOf(c, bb), p)
    ensures var b1, b2, b3, b4 := bb[c.r1][p.i], bb[c.r2][p.j], bb[c.r3][p.g], bb[c.r4][p.f];
      var cc := CompoundAt(c, bb, p);
      && cc.kind == c.kind
      && cc.sumComp == SubstXYZ(c.sumTemplate, IntToDec(b1.x + b2.x + b3.x + b4.x),
           IntToDec(b1.y + b2.y + b3.y + b4.y), IntToDec(b1.z + b2.z + b3.z + b4.z))
      && cc.molComp == ReplaceAll(SubstRadicals(c.molTemplate, [b1.name, b2.name, b3.name, b4.name]), c.toDelete, "")
      && (Normalized(b1.composition) && Normalized(b2.composition) && Normalized(b3.composition)
          && Normalized(b4.composition) && Normalized(c.constMod) ==>
          cc.composition == b1.composition + (DropZero(b2.composition) + (DropZero(b3.composition)
            + (DropZero(b4.composition) + DropZero(c.constMod)))))
  {
    CompoundAtNames(c, bb, p);
    CompoundAtFormula(c, bb, p);
  }

  lemma CompoundAtNames(c: ClassDef, bb: Collections, p: Pick)
    requires ClassOk(c, bb) && Admissible(ShapeOf(c, bb), p)
    ensures var b1, b2, b3, b4 := bb[c.r1][p.i], bb[c.r2][p.j], bb[c.r3][p.g], bb[c.r4][p.f];
      var cc := CompoundAt(c, bb, p);
      && cc.kind == c.kind
      && cc.sumComp == SubstXYZ(c.sumTemplate, IntToDec(b1.x + b2.x + b3.x + b4.x),
           IntToDec(b1.y + b2.y + b3.y + b4.y), IntToDec(b1.z + b2.z + b3.z + b4.z))
      && cc.molComp == ReplaceAll(SubstRadicals(c.molTemplate, [b1.name, b2.name, b3.name, b4.name]), c.toDelete, "")
  {
    var b1, b2, b3, b4 := bb[c.r1][p.i], bb[c.r2][p.j], bb[c.r3][p.g], bb[c.r4][p.f];
    var x, y, z := b1.x + b2.x + b3.x + b4.x, b1.y + b2.y + b3.y + b4.y, b1.z + b2.z + b3.z + b4.z;
    var joined := CombineFormula(b1.composition, b2.composition, b3.composition, b4.composition, c.constMod);
    var cc := MakeCompound(c.kind, c.sumTemplate, c.molTemplate, c.toDelete, joined,
      b1.name, b2.name, b3.name, b4.name, x, y, z);
    assert CompoundAt(c, bb, p) == cc;
    MakeCompoundNames(c.kind, c.sumTemplate, c.molTemplate, c.toDelete, joined,
      b1.name, b2.name, b3.name, b4.name, x, y, z);
    assert cc.sumComp == SubstXYZ(c.sumTemplate, IntToDec(x), IntToDec(y), IntToDec(z));
  }

  lemma CompoundAtFormula(c: ClassDef, bb: Collections, p: Pick)
    requires ClassOk(c, bb) && Admissible(ShapeOf(c, bb), p)
    ensures var b1, b2, b3, b4 := bb[c.r1][p.i], bb[c.r2][p.j], bb[c.r3][p.g], bb[c.r4][p.f];
      (Normalized(b1.composition) && Normalized(b2.composition) && Normalized(b3.composition)
          && Normalized(b4.composition) && Normalized(c.constMod) ==>
          CompoundAt(c, bb, p).composition == b1.composition + (DropZero(b2.composition) + (DropZero(b3.composition)
            + (DropZero(b4.composition) + DropZero(c.constMod)))))
  {
    var b1, b2, b3, b4 := bb[c.r1][p.i], bb[c.r2][p.j], bb[c.r3][p.g], bb[c.r4][p.f];
    if Normalized(b1.composition) && Normalized(b2.composition) && Normalized(b3.composition)
       && Normalized(b4.composition) && Normalized(c.constMod) {
      var joined := CombineFormula(b1.composition, b2.composition, b3.composition, b4.composition, c.constMod);
      CombineFormulaParts(b1.composition, b2.composition, b3.composition, b4.composition, c.constMod);
      NormalizedDropZero(b1.composition, b2.composition, b3.composition, b4.composition, c.constMod);
      assert Normalized(joined);
      MakeCompoundFormula(c.kind, c.sumTemplate, c.molTemplate, c.toDelete, joined,
        b1.name, b2.name, b3.name, b4.name,
        b1.x + b2.x + b3.x + b4.x, b1.y + b2.y + b3.y + b4.y, b1.z + b2.z + b3.z + b4.z);
    }
  }

  lemma NormalizedDropZero(c1: string, c2: string, c3: string, c4: string, m: string)
    requires Normalized(c1) && Normalized(c2) && Normalized(c3) && Normalized(c4) && Normalized(m)
    ensures Normalized(c1 + (DropZero(c2) + (DropZero(c3) + (DropZero(c4) + DropZero(m)))))
  {
    var s := c1 + (DropZero(c2) + (DropZero(c3) + (DropZero(c4) + DropZero(m))));
    forall k | 0 <= k < |s| ensures !IsLower(s[k]) && s[k] != '*' && s[k] != '+' {
      assert s[k] in c1 || s[k] in c2 || s[k] in c3 || s[k] in c4 || s[k] in m;
    }
  }

  // ---------------------------------------------------------------------
  // The list
  // ---------------------------------------------------------------------

  /** F applied to each quadruple, in order. */
  function MapPicks<T>(F: Pick -> T, ps: seq<Pick>): (ts: seq<T>)
    ensures |ts| == |ps|
  {
    seq(|ps|, (k: int) requires 0 <= k < |ps| => F(ps[k]))
  }

  lemma MapPicksAt<T>(F: Pick -> T, ps: seq<Pick>, k: nat)
    requires k < |ps|
    ensures ps[k] in ps && MapPicks(F, ps)[k] == F(ps[k])
  {
  }

  lemma MapPicksMembers<T>(F: Pick -> T, ps: seq<Pick>, t: T)
    ensures t in MapPicks(F, ps) <==> exists p :: p in ps && t == F(p)
  {
    if t in MapPicks(F, ps) {
      var k :| 0 <= k < |ps| && MapPicks(F, ps)[k] == t;
      assert ps[k] in ps;
    }
    if exists p :: p in ps && t == F(p) {
      var p :| p in ps && t == F(p);
      var k :| 0 <= k < |ps| && ps[k] == p;
      assert MapPicks(F, ps)[k] == t;
    }
  }

  lemma MapPicksSingle<T>(F: Pick -> T, p: Pick)
    ensures MapPicks(F, [p]) == [F(p)]
  {
    assert MapPicks(F, [p])[0] == F(p);
  }

  lemma MapPicksAppend<T>(F: Pick -> T, xs: seq<Pick>, ys: seq<Pick>)
    ensures MapPicks(F, xs + ys) == MapPicks(F, xs) + MapPicks(F, ys)
  {
    var l, r := MapPicks(F, xs + ys), MapPicks(F, xs) + MapPicks(F, ys);
    forall k | 0 <= k < |l| ensures l[k] == r[k] {
      if k < |xs| {
        assert (xs + ys)[k] == xs[k];
      } else {
        assert (xs + ys)[k] == ys[k - |xs|];
      }
    }
  }

  /** The constructor's innermost step as a function of the quadruple (a
      quadruple the loops never reach is given the all-empty compound). */
  function CompoundOf(c: ClassDef, bb: Collections): Pick -> CompositeCompound
    requires ClassOk(c, bb)
  {
    p => if Admissible(ShapeOf(c, bb), p) then CompoundAt(c, bb, p) else CompositeCompound("", "", "", "")
  }

  lemma CompoundOfAt(c: ClassDef, bb: Collections, p: Pick)
    requires ClassOk(c, bb) && Admissible(ShapeOf(c, bb), p)
    ensures CompoundOf(c, bb)(p) == CompoundAt(c, bb, p)
  {
  }

  /** The contents of a CompositeCompoundList, in construction order. */
  function Compounds(c: ClassDef, bb: Collections): seq<CompositeCompound>
    requires ClassOk(c, bb)
  {
    MapPicks(CompoundOf(c, bb), Picks(ShapeOf(c, bb)))
  }

  /** The list holds exactly the compounds of the admissible quadruples, one
      per quadruple. */
  lemma CompoundsMembers(c: ClassDef, bb: Collections, cc: CompositeCompound)
    requires ClassOk(c, bb)
    ensures |Compounds(c, bb)| == |Picks(ShapeOf(c, bb))|
    ensures cc in Compounds(c, bb) <==>
      exists p :: Admissible(ShapeOf(c, bb), p) && cc == CompoundAt(c, bb, p)
  {
    var s, F := ShapeOf(c, bb), CompoundOf(c, bb);
    var ps := Picks(s);
    MapPicksMembers(F, ps, cc);
    if cc in Compounds(c, bb) {
      var p :| p in ps && cc == F(p);
      PicksMembers(s, p);
    }
    if exists p :: Admissible(s, p) && cc == CompoundAt(c, bb, p) {
      var p :| Admissible(s, p) && cc == CompoundAt(c, bb, p);
      PicksMembers(s, p);
      assert cc == F(p);
    }
  }

  /** Every compound of a class carries the class's type. */
  lemma CompoundsKind(c: ClassDef, bb: Collections, cc: CompositeCompound)
    requires ClassOk(c, bb) && cc in Compounds(c, bb)
    ensures cc.kind == c.kind
  {
    CompoundsMembers(c, bb, cc);
    var p :| Admissible(ShapeOf(c, bb), p) && cc == CompoundAt(c, bb, p);
    CompoundAtSpec(c, bb, p);
  }

  /** The CompositeCompoundList constructor (LipidGeneratorNode.cs:375-428). */
  method BuildCompoundList(c: ClassDef, bb: Collections) returns (r: seq<CompositeCompound>)
    requires ClassOk(c, bb)
    ensures r == Compounds(c, bb)
  {
    ghost var s, F := ShapeOf(c, bb), CompoundOf(c, bb);
    var R1 := bb[c.r1];
    r := [];
    var i := 0;
    while i < |R1|
      invariant 0 <= i <= |R1|
      invariant r == MapPicks(F, IPicks(s, i))
    {
      var R2 := bb[c.r2];
      var limitR1R2 := if c.r1 == c.r2 then i + 1 else |R2|;
      assert limitR1R2 == Limit(s.same12, i, s.n2);
      var added := BuildJCompounds(c, bb, i, limitR1R2);
      assert IPicks(s, i + 1) == IPicks(s, i) + JPicks(s, i, limitR1R2);
      MapPicksAppend(F, IPicks(s, i), JPicks(s, i, limitR1R2));
      r := r + added;
      i := i + 1;
    }
    assert IPicks(s, i) == Picks(s);
  }

  /** The second loop, for one i. */
  method BuildJCompounds(c: ClassDef, bb: Collections, i: nat, limit: nat) returns (r: seq<CompositeCompound>)
    requires ClassOk(c, bb)
    requires i < |bb[c.r1]| && limit == Limit(c.r1 == c.r2, i, |bb[c.r2]|)
    ensures r == MapPicks(CompoundOf(c, bb), JPicks(ShapeOf(c, bb), i, limit))
  {
    ghost var s, F := ShapeOf(c, bb), CompoundOf(c, bb);
    r := [];
    var j := 0;
    while j < limit
      invariant 0 <= j <= limit
      invariant r == MapPicks(F, JPicks(s, i, j))
    {
      var R3 := bb[c.r3];
      var limitR2R3 := if c.r2 == c.r3 then j + 1 else |R3|;
      assert limitR2R3 == Limit(s.same23, j, s.n3);
      var added := BuildGCompounds(c, bb, i, j, limitR2R3);
      assert JPicks(s, i, j + 1) == JPicks(s, i, j) + GPicks(s, i, j, limitR2R3);
      MapPicksAppend(F, JPicks(s, i, j), GPicks(s, i, j, limitR2R3));
      r := r + added;
      j := j + 1;
    }
  }

  /** The third loop, for one i and j. */
  method BuildGCompounds(c: ClassDef, bb: Collections, i: nat, j: nat, limit: nat) returns (r: seq<CompositeCompound>)
    requires ClassOk(c, bb)
    requires i < |bb[c.r1]| && j < Limit(c.r1 == c.r2, i, |bb[c.r2]|)
    requires limit == Limit(c.r2 == c.r3, j, |bb[c.r3]|)
    ensures r == MapPicks(CompoundOf(c, bb), GPicks(ShapeOf(c, bb), i, j, limit))
  {
    ghost var s, F := ShapeOf(c, bb), CompoundOf(c, bb);
    r := [];
    var g := 0;
    while g < limit
      invariant 0 <= g <= limit
      invariant r == MapPicks(F, GPicks(s, i, j, g))
    {
      var R4 := bb[c.r4];
      var limitR3R4 := if c.r3 == c.r4 then g + 1 else |R4|;
      assert limitR3R4 == Limit(s.same34, g, s.n4);
      var added := BuildFCompounds(c, bb, i, j, g, limitR3R4);
      assert GPicks(s, i, j, g + 1) == GPicks(s, i, j, g) + FPicks(i, j, g, limitR3R4);
      MapPicksAppend(F, GPicks(s, i, j, g), FPicks(i, j, g, limitR3R4));
      r := r + added;
      g := g + 1;
    }
  }

  /** The innermost loop, for one i, j and g: one compound per f. */
  method BuildFCompounds(c: ClassDef, bb: Collections, i: nat, j: nat, g: nat, limit: nat)
    returns (r: seq<CompositeCompound>)
    requires ClassOk(c, bb)
    requires i < |bb[c.r1]| && j < Limit(c.r1 == c.r2, i, |bb[c.r2]|)
    requires g < Limit(c.r2 == c.r3, j, |bb[c.r3]|) && limit == Limit(c.r3 == c.r4, g, |bb[c.r4]|)
    ensures r == MapPicks(CompoundOf(c, bb), FPicks(i, j, g, limit))
  {
    ghost var F := CompoundOf(c, bb);
    r := [];
    var f := 0;
    while f < limit
      invariant 0 <= f <= limit
      invariant r == MapPicks(F, FPicks(i, j, g, f))
    {
      var cc := NewCompound(c, bb, i, j, g, f);
      FPicksSnoc(i, j, g, f);
      MapPicksAppend(F, FPicks(i, j, g, f), [Pick(i, j, g, f)]);
      MapPicksSingle(F, Pick(i, j, g, f));
      CompoundOfAt(c, bb, Pick(i, j, g, f));
      r := r + [cc];
      f := f + 1;
    }
  }

  /** What the compound of a quadruple holds, stated on the loop's indices. */
  lemma NewCompoundSpec(c: ClassDef, bb: Collections, i: nat, j: nat, g: nat, f: nat, cc: CompositeCompound)
    requires ClassOk(c, bb) && Admissible(ShapeOf(c, bb), Pick(i, j, g, f))
    requires cc == CompoundAt(c, bb, Pick(i, j, g, f))
    ensures cc.kind == c.kind
    ensures var b1, b2, b3, b4 := bb[c.r1][i], bb[c.r2][j], bb[c.r3][g], bb[c.r4][f];
      cc.sumComp == SubstXYZ(c.sumTemplate, IntToDec(b1.x + b2.x + b3.x + b4.x),
        IntToDec(b1.y + b2.y + b3.y + b4.y), IntToDec(b1.z + b2.z + b3.z + b4.z))
    ensures var b1, b2, b3, b4 := bb[c.r1][i], bb[c.r2][j], bb[c.r3][g], bb[c.r4][f];
      cc.molComp == ReplaceAll(SubstRadicals(c.molTemplate, [b1.name, b2.name, b3.name, b4.name]), c.toDelete, "")
    ensures var b1, b2, b3, b4 := bb[c.r1][i], bb[c.r2][j], bb[c.r3][g], bb[c.r4][f];
      Normalized(b1.composition) && Normalized(b2.composition) && Normalized(b3.composition)
        && Normalized(b4.composition) && Normalized(c.constMod) ==>
        cc.composition == b1.composition + (DropZero(b2.composition) + (DropZero(b3.composition)
          + (DropZero(b4.composition) + DropZero(c.constMod))))
  {
    CompoundAtSpec(c, bb, Pick(i, j, g, f));
  }

  /** The innermost loop body (LipidGeneratorNode.cs:414-422): the joined
      formula, the summed indices, and the compound made of them. */
  method NewCompound(c: ClassDef, bb: Collections, i: nat, j: nat, g: nat, f: nat) returns (cc: CompositeCompound)
    requires ClassOk(c, bb) && Admissible(ShapeOf(c, bb), Pick(i, j, g, f))
    ensures cc == CompoundAt(c, bb, Pick(i, j, g, f))
    ensures cc.kind == c.kind
    ensures var b1, b2, b3, b4 := bb[c.r1][i], bb[c.r2][j], bb[c.r3][g], bb[c.r4][f];
      cc.sumComp == SubstXYZ(c.sumTemplate, IntToDec(b1.x + b2.x + b3.x + b4.x),
        IntToDec(b1.y + b2.y + b3.y + b4.y), IntToDec(b1.z + b2.z + b3.z + b4.z))
    ensures var b1, b2, b3, b4 := bb[c.r1][i], bb[c.r2][j], bb[c.r3][g], bb[c.r4][f];
      cc.molComp == ReplaceAll(SubstRadicals(c.molTemplate, [b1.name, b2.name, b3.name, b4.name]), c.toDelete, "")
    ensures var b1, b2, b3, b4 := bb[c.r1][i], bb[c.r2][j], bb[c.r3][g], bb[c.r4][f];
      Normalized(b1.composition) && Normalized(b2.composition) && Normalized(b3.composition)
        && Normalized(b4.composition) && Normalized(c.constMod) ==>
        cc.composition == b1.composition + (DropZero(b2.composition) + (DropZero(b3.composition)
          + (DropZero(b4.composition) + DropZero(c.constMod))))
  {
    var R1, R2, R3, R4 := bb[c.r1], bb[c.r2], bb[c.r3], bb[c.r4];
    var totalElemComp := CombineFormula(R1[i].composition, R2[j].composition, R3[g].composition,
      R4[f].composition, c.constMod);
    var totalX := R1[i].x + R2[j].x + R3[g].x + R4[f].x;
    var totalY := R1[i].y + R2[j].y + R3[g].y + R4[f].y;
    var totalZ := R1[i].z + R2[j].z + R3[g].z + R4[f].z;
    cc := MakeCompound(c.kind, c.sumTemplate, c.molTemplate, c.toDelete, totalElemComp,
      R1[i].name, R2[j].name, R3[g].name, R4[f].name, totalX, totalY, totalZ);
    assert cc == CompoundAt(c, bb, Pick(i, j, g, f));
    NewCompoundSpec(c, bb, i, j, g, f, cc);
  }

  // ---------------------------------------------------------------------
  // How many compounds a class gives
  // ---------------------------------------------------------------------

  /** A second slot under another key whose list is empty stops every row of
      the outer loop. */
  lemma {:induction false} IPicksNoSecond(s: Shape, m: nat)
    requires !s.same12 && s.n2 == 0
    ensures IPicks(s, m) == []
    decreases m
  {
    if m > 0 {
      IPicksNoSecond(s, m - 1);
      assert JPicks(s, m - 1, 0) == [];
    }
  }

  /** A class whose first list is empty, or whose second list is empty and
      under a different key, gives no compound. */
  lemma EmptySlotNoCompounds(c: ClassDef, bb: Collections)
    requires ClassOk(c, bb)
    requires |bb[c.r1]| == 0 || (c.r1 != c.r2 && |bb[c.r2]| == 0)
    ensures Compounds(c, bb) == []
  {
    var s := ShapeOf(c, bb);
    if |bb[c.r1]| != 0 {
      IPicksNoSecond(s, s.n1);
    }
  }

  /** Slots 1 and 2 under one key over n blocks, slots 3 and 4 over one block
      each: n (n + 1) / 2 compounds, one per unordered pair. */
  lemma PairCompounds(c: ClassDef, bb: Collections)
    requires ClassOk(c, bb)
    requires c.r1 == c.r2 && c.r2 != c.r3 && |bb[c.r3]| == 1 && |bb[c.r4]| == 1
    ensures |Compounds(c, bb)| == |bb[c.r1]| * (|bb[c.r1]| + 1) / 2
  {
    PairCount(ShapeOf(c, bb));
  }

  /** With no two neighbouring slots under one key (or only over one-block
      lists), a class gives the full product of the four list sizes. */
  lemma ProductCompounds(c: ClassDef, bb: Collections)
    requires ClassOk(c, bb)
    requires c.r1 == c.r2 ==> |bb[c.r2]| == 1
    requires c.r2 == c.r3 ==> |bb[c.r3]| == 1
    requires c.r3 == c.r4 ==> |bb[c.r4]| == 1
    ensures |Compounds(c, bb)| == |bb[c.r1]| * (|bb[c.r2]| * (|bb[c.r3]| * |bb[c.r4]|))
  {
    ProductCount(ShapeOf(c, bb));
  }

  /** A class with one varying slot followed by three slots on one
      single-block list gives one compound per block of the first list. */
  lemma OneSlotCompounds(c: ClassDef, bb: Collections)
    requires ClassOk(c, bb)
    requires c.r1 != c.r2 && c.r2 == c.r3 && c.r3 == c.r4 && |bb[c.r2]| == 1
    ensures |Compounds(c, bb)| == |bb[c.r1]|
  {
    ProductCompounds(c, bb);
  }

  /** Four one-block lists give exactly one compound, from the first block of
      each, whichever slots share a key. */
  lemma SingleCompound(c: ClassDef, bb: Collections)
    requires ClassOk(c, bb)
    requires |bb[c.r1]| == 1 && |bb[c.r2]| == 1 && |bb[c.r3]| == 1 && |bb[c.r4]| == 1
    ensures Admissible(ShapeOf(c, bb), Pick(0, 0, 0, 0))
    ensures Compounds(c, bb) == [CompoundAt(c, bb, Pick(0, 0, 0, 0))]
  {
    var s, F := ShapeOf(c, bb), CompoundOf(c, bb);
    var p := Pick(0, 0, 0, 0);
    assert GPicks(s, 0, 0, 1) == [] + FPicks(0, 0, 0, 1);
    assert FPicks(0, 0, 0, 1) == [p];
    assert JPicks(s, 0, 1) == [] + GPicks(s, 0, 0, 1);
    assert IPicks(s, 1) == [] + JPicks(s, 0, 1);
    assert Picks(s) == [p];
    MapPicksSingle(F, p);
  }
}
