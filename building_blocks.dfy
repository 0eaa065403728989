/** Building blocks and building-block lists (LipidGeneratorNode.cs:271-342):
    a block family is described by six table strings; its list holds one
    block per (x, y, z) taken from the x, y and z range specifications, the
    y range resolved against x and the z range against x and y. */
module BuildingBlocks {
  import opened Wrappers
  import opened Text
  import opened ExtractInfo

  /** BuildingBlock (LipidGeneratorNode.cs:271-283), without its mass. */
  datatype BuildingBlock = BuildingBlock(kind: string, name: string, composition: string, x: int, y: int, z: int)

  /** The six table strings a BuildingBlockList is built from. */
  datatype BlockTable = BlockTable(
    kind: string, nameTemplate: string, compositionTemplate: string,
    xSpec: string, ySpec: string, zSpec: string)

  /** What the constructor needs not to throw: a name template String.Format
      accepts and range specifications whose "lo-hi" tokens parse. */
  predicate TableOk(t: BlockTable)
  {
    NoBraces(t.nameTemplate) && SpecOk(t.xSpec) && SpecOk(t.ySpec) && SpecOk(t.zSpec)
  }

  /** The BuildingBlock constructor (LipidGeneratorNode.cs:285-294): the name
      is the template with x, y, z written in, the formula the rendered
      composition template, and the indices are kept. */
  function MakeBlock(t: BlockTable, x: int, y: int, z: int): (b: BuildingBlock)
    requires NoBraces(t.nameTemplate)
    ensures b.kind == t.kind && b.x == x && b.y == y && b.z == z
    ensures b.name == SubstXYZ(t.nameTemplate, IntToDec(x), IntToDec(y), IntToDec(z))
    ensures '*' !in b.composition && NoLower(b.composition)
  {
    GetNameSubst(t.nameTemplate, x, y, z);
    ElemCompFAClean(t.compositionTemplate, x, y, z);
    BuildingBlock(t.kind, GetName(t.nameTemplate, x, y, z), GetElemCompFA(t.compositionTemplate, x, y, z), x, y, z)
  }

  /** The blocks of the innermost loop, for fixed x and y. */
  function ZBlocks(t: BlockTable, x: int, y: int, zs: seq<int>): seq<BuildingBlock>
    requires NoBraces(t.nameTemplate)
    decreases |zs|
  {
    if zs == [] then []
    else ZBlocks(t, x, y, zs[..|zs| - 1]) + [MakeBlock(t, x, y, zs[|zs| - 1])]
  }

  /** The blocks of the middle loop, for fixed x. */
  function YBlocks(t: BlockTable, x: int, ys: seq<int>): seq<BuildingBlock>
    requires TableOk(t)
    decreases |ys|
  {
    if ys == [] then []
    else
      var y := ys[|ys| - 1];
      YBlocks(t, x, ys[..|ys| - 1]) + ZBlocks(t, x, y, Resolve(t.zSpec, x, y))
  }

  /** The blocks of the outer loop. */
  function XBlocks(t: BlockTable, xs: seq<int>): seq<BuildingBlock>
    requires TableOk(t)
    decreases |xs|
  {
    if xs == [] then []
    else
      var x := xs[|xs| - 1];
      XBlocks(t, xs[..|xs| - 1]) + YBlocks(t, x, Resolve(t.ySpec, x, 0))
  }

  /** The contents of a BuildingBlockList, in construction order. */
  function Blocks(t: BlockTable): seq<BuildingBlock>
    requires TableOk(t)
  {
    XBlocks(t, Resolve(t.xSpec, 0, 0))
  }

  /** The BuildingBlockList constructor (LipidGeneratorNode.cs:322-339): three
      nested loops over the x, y and z indices, one block added per triple. */
  method BuildBlockList(t: BlockTable) returns (r: seq<BuildingBlock>)
    requires TableOk(t)
    ensures r == Blocks(t)
  {
    var xs := FindIndex(t.xSpec, 0, 0);
    r := [];
    var i := 0;
    while i < |xs|
      invariant 0 <= i <= |xs|
      invariant r == XBlocks(t, xs[..i])
    {
      var ys := FindIndex(t.ySpec, xs[i], 0);
      var added := BuildYBlocks(t, xs[i], ys);
      XBlocksSnoc(t, xs, i);
      r := r + added;
      i := i + 1;
    }
    assert xs[..i] == xs;
  }

  /** The middle loop of the constructor, for one x. */
  method BuildYBlocks(t: BlockTable, x: int, ys: seq<int>) returns (r: seq<BuildingBlock>)
    requires TableOk(t)
    ensures r == YBlocks(t, x, ys)
  {
    r := [];
    var j := 0;
    while j < |ys|
      invariant 0 <= j <= |ys|
      invariant r == YBlocks(t, x, ys[..j])
    {
      var zs := FindIndex(t.zSpec, x, ys[j]);
      var added := BuildZBlocks(t, x, ys[j], zs);
      YBlocksSnoc(t, x, ys, j);
      r := r + added;
      j := j + 1;
    }
    assert ys[..j] == ys;
  }

  /** The inner loop of the constructor, for one x and one y. */
  method BuildZBlocks(t: BlockTable, x: int, y: int, zs: seq<int>) returns (r: seq<BuildingBlock>)
    requires NoBraces(t.nameTemplate)
    ensures r == ZBlocks(t, x, y, zs)
  {
    r := [];
    var k := 0;
    while k < |zs|
      invariant 0 <= k <= |zs|
      invariant r == ZBlocks(t, x, y, zs[..k])
    {
      r := r + [MakeBlock(t, x, y, zs[k])];
      assert zs[..k + 1][..k] == zs[..k];
      k := k + 1;
    }
    assert zs[..k] == zs;
  }

  lemma YBlocksSnoc(t: BlockTable, x: int, ys: seq<int>, j: nat)
    requires TableOk(t) && j < |ys|
    ensures YBlocks(t, x, ys[..j + 1]) == YBlocks(t, x, ys[..j]) + ZBlocks(t, x, ys[j], Resolve(t.zSpec, x, ys[j]))
  {
    assert ys[..j + 1][..j] == ys[..j];
  }

  lemma XBlocksSnoc(t: BlockTable, xs: seq<int>, i: nat)
    requires TableOk(t) && i < |xs|
    ensures XBlocks(t, xs[..i + 1]) == XBlocks(t, xs[..i]) + YBlocks(t, xs[i], Resolve(t.ySpec, xs[i], 0))
  {
    assert xs[..i + 1][..i] == xs[..i];
  }

  // ---------------------------------------------------------------------
  // What a list holds
  // ---------------------------------------------------------------------

  lemma {:induction false} ZBlocksMembers(t: BlockTable, x: int, y: int, zs: seq<int>, b: BuildingBlock)
    requires NoBraces(t.nameTemplate)
    ensures |ZBlocks(t, x, y, zs)| == |zs|
    ensures b in ZBlocks(t, x, y, zs) <==> exists z :: z in zs && b == MakeBlock(t, x, y, z)
    decreases |zs|
  {
    if zs != [] {
      var front := zs[..|zs| - 1];
      ZBlocksMembers(t, x, y, front, b);
      assert zs == front + [zs[|zs| - 1]];
      if b in ZBlocks(t, x, y, zs) && b !in ZBlocks(t, x, y, front) {
        assert b == MakeBlock(t, x, y, zs[|zs| - 1]);
      }
    }
  }

  /** y and z are indices the specifications give for x. */
  predicate Admissible(t: BlockTable, x: int, y: int, z: int)
    requires TableOk(t)
  {
    y in Resolve(t.ySpec, x, 0) && z in Resolve(t.zSpec, x, y)
  }

  /** The middle loop adds the block of every y in ys and every z of its z range. */
  lemma {:induction false} YBlocksComplete(t: BlockTable, x: int, ys: seq<int>, y: int, z: int)
    requires TableOk(t) && y in ys && z in Resolve(t.zSpec, x, y)
    ensures MakeBlock(t, x, y, z) in YBlocks(t, x, ys)
    decreases |ys|
  {
    var front, last := ys[..|ys| - 1], ys[|ys| - 1];
    assert ys == front + [last];
    if y == last {
      ZBlocksMembers(t, x, y, Resolve(t.zSpec, x, y), MakeBlock(t, x, y, z));
    } else {
      assert y in front;
      YBlocksComplete(t, x, front, y, z);
    }
  }

  /** ... and nothing else. */
  lemma {:induction false} YBlocksSound(t: BlockTable, x: int, ys: seq<int>, b: BuildingBlock)
    requires TableOk(t) && b in YBlocks(t, x, ys)
    ensures exists y, z :: y in ys && z in Resolve(t.zSpec, x, y) && b == MakeBlock(t, x, y, z)
    decreases |ys|
  {
    var front, last := ys[..|ys| - 1], ys[|ys| - 1];
    assert ys == front + [last];
    if b in YBlocks(t, x, front) {
      YBlocksSound(t, x, front, b);
      var y, z :| y in front && z in Resolve(t.zSpec, x, y) && b == MakeBlock(t, x, y, z);
      assert y in ys;
    } else {
      ZBlocksMembers(t, x, last, Resolve(t.zSpec, x, last), b);
      var z :| z in Resolve(t.zSpec, x, last) && b == MakeBlock(t, x, last, z);
      assert last in ys;
    }
  }

  /** The outer loop adds the block of every admissible triple whose x is in xs. */
  lemma {:induction false} XBlocksComplete(t: BlockTable, xs: seq<int>, x: int, y: int, z: int)
    requires TableOk(t) && x in xs && Admissible(t, x, y, z)
    ensures MakeBlock(t, x, y, z) in XBlocks(t, xs)
    decreases |xs|
  {
    var front, last := xs[..|xs| - 1], xs[|xs| - 1];
    assert xs == front + [last];
    if x == last {
      YBlocksComplete(t, x, Resolve(t.ySpec, x, 0), y, z);
    } else {
      assert x in front;
      XBlocksComplete(t, front, x, y, z);
    }
  }

  /** ... and nothing else. */
  lemma {:induction false} XBlocksSound(t: BlockTable, xs: seq<int>, b: BuildingBlock)
    requires TableOk(t) && b in XBlocks(t, xs)
    ensures exists x, y, z :: x in xs && Admissible(t, x, y, z) && b == MakeBlock(t, x, y, z)
    decreases |xs|
  {
    var front, last := xs[..|xs| - 1], xs[|xs| - 1];
    assert xs == front + [last];
    if b in XBlocks(t, front) {
      XBlocksSound(t, front, b);
      var x, y, z :| x in front && Admissible(t, x, y, z) && b == MakeBlock(t, x, y, z);
      assert x in xs;
    } else {
      YBlocksSound(t, last, Resolve(t.ySpec, last, 0), b);
      var y, z :| y in Resolve(t.ySpec, last, 0) && z in Resolve(t.zSpec, last, y) && b == MakeBlock(t, last, y, z);
      assert Admissible(t, last, y, z) && last in xs;
    }
  }

  /** A list holds exactly the blocks of the index triples its three
      specifications denote, y resolved against x and z against x and y. */
  lemma BlocksMembers(t: BlockTable, b: BuildingBlock)
    requires TableOk(t)
    ensures b in Blocks(t) <==>
      exists x, y, z :: x in Resolve(t.xSpec, 0, 0) && Admissible(t, x, y, z) && b == MakeBlock(t, x, y, z)
  {
    if b in Blocks(t) {
      XBlocksSound(t, Resolve(t.xSpec, 0, 0), b);
    }
    if exists x, y, z :: x in Resolve(t.xSpec, 0, 0) && Admissible(t, x, y, z) && b == MakeBlock(t, x, y, z) {
      var x, y, z :| x in Resolve(t.xSpec, 0, 0) && Admissible(t, x, y, z) && b == MakeBlock(t, x, y, z);
      XBlocksComplete(t, Resolve(t.xSpec, 0, 0), x, y, z);
    }
  }

  // ---------------------------------------------------------------------
  // In what order a list holds its blocks
  // ---------------------------------------------------------------------

  /** Strictly ascending integers. */
  predicate Ascending(s: seq<int>) { forall p, q :: 0 <= p < q < |s| ==> s[p] < s[q] }

  /** Lexicographic order on the (x, y, z) indices of two blocks. */
  predicate IndexLess(a: BuildingBlock, b: BuildingBlock)
  {
    a.x < b.x || (a.x == b.x && (a.y < b.y || (a.y == b.y && a.z < b.z)))
  }

  /** Blocks in strictly ascending (x, y, z) order. */
  predicate IndexAscending(bs: seq<BuildingBlock>)
  {
    forall p, q :: 0 <= p < q < |bs| ==> IndexLess(bs[p], bs[q])
  }

  lemma AppendAscending(a: seq<BuildingBlock>, b: seq<BuildingBlock>)
    requires IndexAscending(a) && IndexAscending(b)
    requires forall p, q :: 0 <= p < |a| && 0 <= q < |b| ==> IndexLess(a[p], b[q])
    ensures IndexAscending(a + b)
  {
    forall p, q | 0 <= p < q < |a + b| ensures IndexLess((a + b)[p], (a + b)[q]) {
      if q < |a| {
        assert (a + b)[p] == a[p] && (a + b)[q] == a[q];
      } else if p < |a| {
        assert (a + b)[p] == a[p] && (a + b)[q] == b[q - |a|];
      } else {
        assert (a + b)[p] == b[p - |a|] && (a + b)[q] == b[q - |a|];
      }
    }
  }

  /** The inner loop adds the block of zs[k] at position k. */
  lemma {:induction false} ZBlocksAt(t: BlockTable, x: int, y: int, zs: seq<int>, k: nat)
    requires NoBraces(t.nameTemplate) && k < |zs|
    ensures |ZBlocks(t, x, y, zs)| == |zs| && ZBlocks(t, x, y, zs)[k] == MakeBlock(t, x, y, zs[k])
    decreases |zs|
  {
    var front := zs[..|zs| - 1];
    ZBlocksMembers(t, x, y, front, MakeBlock(t, x, y, zs[k]));
    if k < |front| {
      ZBlocksAt(t, x, y, front, k);
    }
  }

  /** Ascending z indices give blocks in ascending order. */
  lemma ZBlocksAscending(t: BlockTable, x: int, y: int, zs: seq<int>)
    requires NoBraces(t.nameTemplate) && Ascending(zs)
    ensures IndexAscending(ZBlocks(t, x, y, zs))
  {
    var bs := ZBlocks(t, x, y, zs);
    ZBlocksMembers(t, x, y, zs, MakeBlock(t, x, y, 0));
    forall p, q | 0 <= p < q < |bs| ensures IndexLess(bs[p], bs[q]) {
      ZBlocksAt(t, x, y, zs, p);
      ZBlocksAt(t, x, y, zs, q);
    }
  }

  /** Every block of the middle loop has the loop's x and one of its y. */
  lemma YBlocksIndices(t: BlockTable, x: int, ys: seq<int>, k: nat)
    requires TableOk(t) && k < |YBlocks(t, x, ys)|
    ensures YBlocks(t, x, ys)[k].x == x && YBlocks(t, x, ys)[k].y in ys
  {
    YBlocksSound(t, x, ys, YBlocks(t, x, ys)[k]);
  }

  /** Ascending y indices, each with ascending z indices, give blocks in
      ascending order. */
  lemma {:induction false} YBlocksAscending(t: BlockTable, x: int, ys: seq<int>)
    requires TableOk(t) && Ascending(ys)
    requires forall y :: y in ys ==> Ascending(Resolve(t.zSpec, x, y))
    ensures IndexAscending(YBlocks(t, x, ys))
    decreases |ys|
  {
    if ys != [] {
      var front, last := ys[..|ys| - 1], ys[|ys| - 1];
      assert forall y :: y in front ==> y in ys;
      YBlocksAscending(t, x, front);
      var a, b := YBlocks(t, x, front), ZBlocks(t, x, last, Resolve(t.zSpec, x, last));
      ZBlocksAscending(t, x, last, Resolve(t.zSpec, x, last));
      ZBlocksMembers(t, x, last, Resolve(t.zSpec, x, last), MakeBlock(t, x, last, 0));
      forall p, q | 0 <= p < |a| && 0 <= q < |b| ensures IndexLess(a[p], b[q]) {
        YBlocksIndices(t, x, front, p);
        ZBlocksAt(t, x, last, Resolve(t.zSpec, x, last), q);
        var i :| 0 <= i < |front| && front[i] == a[p].y;
        assert ys[i] < ys[|ys| - 1];
      }
      AppendAscending(a, b);
    }
  }

  /** Every block of the outer loop has one of its x. */
  lemma XBlocksIndices(t: BlockTable, xs: seq<int>, k: nat)
    requires TableOk(t) && k < |XBlocks(t, xs)|
    ensures XBlocks(t, xs)[k].x in xs
  {
    XBlocksSound(t, xs, XBlocks(t, xs)[k]);
  }

  /** The x indices and, for each, the y and z indices are ascending. */
  predicate AscendingIndices(t: BlockTable, xs: seq<int>)
    requires TableOk(t)
  {
    && Ascending(xs)
    && (forall x :: x in xs ==> Ascending(Resolve(t.ySpec, x, 0)))
    && (forall x, y :: x in xs && y in Resolve(t.ySpec, x, 0) ==> Ascending(Resolve(t.zSpec, x, y)))
  }

  lemma {:induction false} XBlocksAscending(t: BlockTable, xs: seq<int>)
    requires TableOk(t) && AscendingIndices(t, xs)
    ensures IndexAscending(XBlocks(t, xs))
    decreases |xs|
  {
    if xs != [] {
      var front, last := xs[..|xs| - 1], xs[|xs| - 1];
      assert forall x :: x in front ==> x in xs;
      XBlocksAscending(t, front);
      var ys := Resolve(t.ySpec, last, 0);
      var a, b := XBlocks(t, front), YBlocks(t, last, ys);
      YBlocksAscending(t, last, ys);
      forall p, q | 0 <= p < |a| && 0 <= q < |b| ensures IndexLess(a[p], b[q]) {
        XBlocksIndices(t, front, p);
        YBlocksIndices(t, last, ys, q);
        var i :| 0 <= i < |front| && front[i] == a[p].x;
        assert xs[i] < xs[|xs| - 1];
      }
      AppendAscending(a, b);
    }
  }

  /** The constructor adds blocks in X-major, then Y, then Z order: when the
      specifications give ascending indices, the list is strictly ascending
      in (x, y, z), so no block occurs twice. */
  lemma BlocksAscending(t: BlockTable)
    requires TableOk(t) && AscendingIndices(t, Resolve(t.xSpec, 0, 0))
    ensures IndexAscending(Blocks(t))
    ensures forall p, q :: 0 <= p < q < |Blocks(t)| ==> Blocks(t)[p] != Blocks(t)[q]
  {
    XBlocksAscending(t, Resolve(t.xSpec, 0, 0));
  }

  // ---------------------------------------------------------------------
  // List<BuildingBlock>.Find with a name-substring predicate
  // ---------------------------------------------------------------------

  /** FAdb.Find(x => x.Name.Contains(key)) (LipidGeneratorNode.cs:158): the
      first block whose name contains key, or nothing (null in the source). */
  function FindByName(bs: seq<BuildingBlock>, key: string): (r: Option<BuildingBlock>)
    ensures r.Some? ==> r.value in bs && Contains(r.value.name, key)
    ensures r.None? <==> forall k :: 0 <= k < |bs| ==> !Contains(bs[k].name, key)
    decreases |bs|
  {
    if bs == [] then None
    else if Contains(bs[0].name, key) then Some(bs[0])
    else
      var r := FindByName(bs[1..], key);
      assert forall k :: 1 <= k < |bs| ==> bs[k] == bs[1..][k - 1];
      r
  }

  /** Find returns the first match: no block before it matches. */
  lemma {:induction false} FindByNameFirst(bs: seq<BuildingBlock>, key: string, k: nat)
    requires k < |bs| && Contains(bs[k].name, key)
    requires forall m :: 0 <= m < k ==> !Contains(bs[m].name, key)
    ensures FindByName(bs, key) == Some(bs[k])
    decreases k
  {
    if k > 0 {
      assert !Contains(bs[0].name, key);
      FindByNameFirst(bs[1..], key, k - 1);
    }
  }
}
