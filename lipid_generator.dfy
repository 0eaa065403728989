/** GenerateLipids (LipidGeneratorNode.cs:140-252) without its host plumbing:
    the four building-block lists, the fatty-acyl selection, the class table,
    and the fold that keeps the first compound of every sum composition. */
module LipidGenerator {
  import opened Wrappers
  import opened Text
  import opened ExtractInfo
  import opened BuildingBlocks
  import opened CompositeCompounds

  // ---------------------------------------------------------------------
  // The building-block lists (LipidGeneratorNode.cs:149-168)
  // ---------------------------------------------------------------------

  /** NAN: the empty slot, one block with the formula "0". */
  const NanTable := BlockTable("", "", "0", "", "", "")
  /** FAdb: every fatty acyl of 12 to 22 carbons. */
  const FadbTable := BlockTable("FAdb", "FA x:y", "c*x + h*(x-y)*2 + o*2", "12-22", "y=function", "")
  /** SPH: the one sphingoid base d18:1. */
  const SphTable := BlockTable("SPH", "d18:1", "c*18 + h*35 + o*1 + n", "18", "1", "2")
  /** The all-empty table the FA list is started from. */
  const EmptyTable := BlockTable("", "", "", "", "", "")

  // The range specifications of the tables, stated on the table fields.

  lemma EmptySpec(a: int, b: int)
    ensures SpecOk("") && Resolve("", a, b) == [0]
  {
    ResolveLiteralSpec([0], a, b);
  }

  lemma FadbXSpec()
    ensures SpecOk(FadbTable.xSpec) && Resolve(FadbTable.xSpec, 0, 0) == Interval(12, 22)
  {
    TwoDigits('1', '2');
    TwoDigits('2', '2');
    assert FadbTable.xSpec == ['1', '2'] + "-" + ['2', '2'];
    RangeSpecResolve(['1', '2'], ['2', '2'], 0, 0);
  }

  lemma FadbYSpec(x: int)
    requires 12 <= x <= 22
    ensures SpecOk(FadbTable.ySpec) && Resolve(FadbTable.ySpec, x, 0) == Interval(0, x / 2 - 5)
  {
    FattyAcylUnsaturation(x);
  }

  lemma SphXSpec()
    ensures SpecOk(SphTable.xSpec) && Resolve(SphTable.xSpec, 0, 0) == [18]
  {
    TwoDigits('1', '8');
    assert SphTable.xSpec == ['1', '8'];
    NumeralSpecResolve(['1', '8'], 0, 0);
  }

  lemma SphYSpec()
    ensures SpecOk(SphTable.ySpec) && Resolve(SphTable.ySpec, 18, 0) == [1]
  {
    assert SphTable.ySpec == ['1'] && DigitsValue(['1']) == 1;
    NumeralSpecResolve(['1'], 18, 0);
  }

  lemma SphZSpec()
    ensures SpecOk(SphTable.zSpec) && Resolve(SphTable.zSpec, 18, 1) == [2]
  {
    assert SphTable.zSpec == ['2'] && DigitsValue(['2']) == 2;
    NumeralSpecResolve(['2'], 18, 1);
  }

  lemma NanTableOk()
    ensures TableOk(NanTable) && TableOk(EmptyTable)
  {
    EmptySpec(0, 0);
  }

  lemma FadbXOk()
    ensures SpecOk(FadbTable.xSpec)
  {
    FadbXSpec();
  }

  lemma FadbYOk()
    ensures SpecOk(FadbTable.ySpec)
  {
    FadbYSpec(12);
  }

  lemma FadbZOk()
    ensures SpecOk(FadbTable.zSpec)
  {
    EmptySpec(0, 0);
  }

  lemma FadbNameOk()
    ensures NoBraces(FadbTable.nameTemplate)
  {
  }

  lemma FadbTableOk()
    ensures TableOk(FadbTable)
  {
    FadbXOk();
    FadbYOk();
    FadbZOk();
    FadbNameOk();
  }

  lemma SphTableOk()
    ensures TableOk(SphTable)
  {
    SphXSpec();
    SphYSpec();
    SphZSpec();
  }

  /** The four tables of the generator are well formed. */
  lemma TablesOk()
    ensures TableOk(NanTable) && TableOk(FadbTable) && TableOk(SphTable) && TableOk(EmptyTable)
  {
    NanTableOk();
    FadbTableOk();
    SphTableOk();
  }

  /** Three one-element ranges give a one-block list. */
  lemma SingleBlock(t: BlockTable, x: int, y: int, z: int)
    requires TableOk(t)
    requires Resolve(t.xSpec, 0, 0) == [x] && Resolve(t.ySpec, x, 0) == [y] && Resolve(t.zSpec, x, y) == [z]
    ensures Blocks(t) == [MakeBlock(t, x, y, z)]
  {
    assert [x][..0] == [] && [y][..0] == [] && [z][..0] == [];
    assert ZBlocks(t, x, y, [z]) == [MakeBlock(t, x, y, z)];
    assert YBlocks(t, x, [y]) == ZBlocks(t, x, y, [z]);
    assert XBlocks(t, [x]) == YBlocks(t, x, [y]);
  }

  /** The all-empty specification of NAN (LipidGeneratorNode.cs:149) gives a
      single block: no name, the formula "0", all indices 0. */
  lemma NanBlocks()
    ensures TableOk(NanTable)
    ensures Blocks(NanTable) == [BuildingBlock("", "", "0", 0, 0, 0)]
  {
    NanTableOk();
    EmptySpec(0, 0);
    SingleBlock(NanTable, 0, 0, 0);
    ElemCompFAIdentity(NanTable.compositionTemplate, 0, 0, 0);
  }

  /** The all-empty table (LipidGeneratorNode.cs:153) also gives one block,
      which RemoveAt(0) then takes away, so the FA list starts empty. */
  lemma EmptyBlocks()
    ensures TableOk(EmptyTable)
    ensures Blocks(EmptyTable) == [BuildingBlock("", "", "", 0, 0, 0)]
    ensures Blocks(EmptyTable)[1..] == []
  {
    NanTableOk();
    EmptySpec(0, 0);
    SingleBlock(EmptyTable, 0, 0, 0);
    ElemCompFAIdentity(EmptyTable.compositionTemplate, 0, 0, 0);
  }

  lemma SphComposition()
    ensures GetElemCompFA(SphTable.compositionTemplate, 18, 1, 2) == "C18H35O1N"
  {
    assert SphTable.compositionTemplate
      == "c*18" + (" + " + ("h*35" + (" + " + ("o*1" + (" + " + "n")))));
    SphingoidFormula(18, 1, 2);
  }

  lemma SphName()
    ensures SubstXYZ(SphTable.nameTemplate, IntToDec(18), IntToDec(1), IntToDec(2)) == "d18:1"
  {
    SubstXYZPlain(SphTable.nameTemplate, IntToDec(18), IntToDec(1), IntToDec(2));
  }

  /** SPH (LipidGeneratorNode.cs:151) is the single block d18:1 with the
      formula C18H35O1N and indices 18, 1, 2. */
  lemma SphBlocks()
    ensures TableOk(SphTable)
    ensures Blocks(SphTable) == [BuildingBlock("SPH", "d18:1", "C18H35O1N", 18, 1, 2)]
  {
    SphTableOk();
    SphXSpec();
    SphYSpec();
    SphZSpec();
    SingleBlock(SphTable, 18, 1, 2);
    SphName();
    SphComposition();
  }

  /** The fatty acyl with x carbons and y double bonds, as FAdb holds it. */
  function FattyAcylBlock(x: int, y: int): BuildingBlock
  {
    BuildingBlock("FAdb", "FA " + (IntToDec(x) + (":" + IntToDec(y))),
      ("C" + IntToDec(x)) + (("H" + IntToDec((x - y) * 2)) + "O2"), x, y, 0)
  }

  lemma FadbName(sx: string, sy: string, sz: string)
    ensures SubstXYZ(FadbTable.nameTemplate, sx, sy, sz) == "FA " + (sx + (":" + sy))
  {
    assert FadbTable.nameTemplate == "FA " + (['x'] + ([':'] + ['y']));
    SubstXYZAppend("FA ", ['x'] + ([':'] + ['y']), sx, sy, sz);
    SubstXYZPlain("FA ", sx, sy, sz);
    SubstXYZAppend(['x'], [':'] + ['y'], sx, sy, sz);
    SubstXYZAppend([':'], ['y'], sx, sy, sz);
    SubstXYZOne('x', sx, sy, sz);
    SubstXYZOne(':', sx, sy, sz);
    SubstXYZOne('y', sx, sy, sz);
  }

  lemma FadbComposition(x: int, y: int)
    ensures GetElemCompFA(FadbTable.compositionTemplate, x, y, 0)
      == ("C" + IntToDec(x)) + (("H" + IntToDec((x - y) * 2)) + "O2")
  {
    FattyAcylFormula(x, y, 0);
  }

  lemma FadbBlock(x: int, y: int)
    ensures MakeBlock(FadbTable, x, y, 0) == FattyAcylBlock(x, y)
  {
    FadbName(IntToDec(x), IntToDec(y), IntToDec(0));
    FadbComposition(x, y);
  }

  /** What a fatty-acyl table resolves to: x from 12 to 22, y from 0 to
      x/2 - 5, z always 0, and the block of (x, y) the fatty acyl. (Stated
      on the resolved ranges, so that the proofs below never compute the
      FAdb strings themselves.) */
  ghost predicate FattyAcylTable(t: BlockTable)
  {
    TableOk(t)
    && (forall x :: x in Resolve(t.xSpec, 0, 0) <==> 12 <= x <= 22)
    && (forall x, y :: 12 <= x <= 22 ==> (y in Resolve(t.ySpec, x, 0) <==> 0 <= y <= x / 2 - 5))
    && (forall x, y, z :: z in Resolve(t.zSpec, x, y) <==> z == 0)
    && (forall x, y :: MakeBlock(t, x, y, 0) == FattyAcylBlock(x, y))
  }

  lemma IntervalMember(lo: int, hi: int, v: int)
    ensures v in Interval(lo, hi) <==> lo <= v <= hi
  {
    if lo <= v <= hi {
      assert Interval(lo, hi)[v - lo] == v;
    }
  }

  lemma FadbShapeX()
    ensures SpecOk(FadbTable.xSpec)
    ensures forall x :: x in Resolve(FadbTable.xSpec, 0, 0) <==> 12 <= x <= 22
  {
    FadbXSpec();
    forall x ensures x in Resolve(FadbTable.xSpec, 0, 0) <==> 12 <= x <= 22 {
      IntervalMember(12, 22, x);
    }
  }

  lemma FadbShapeY()
    ensures SpecOk(FadbTable.ySpec)
    ensures forall x, y :: 12 <= x <= 22 ==> (y in Resolve(FadbTable.ySpec, x, 0) <==> 0 <= y <= x / 2 - 5)
  {
    FadbYOk();
    forall x, y | 12 <= x <= 22 ensures y in Resolve(FadbTable.ySpec, x, 0) <==> 0 <= y <= x / 2 - 5 {
      FadbYSpec(x);
      IntervalMember(0, x / 2 - 5, y);
    }
  }

  lemma FadbShapeZ()
    ensures SpecOk(FadbTable.zSpec) && forall x, y, z :: z in Resolve(FadbTable.zSpec, x, y) <==> z == 0
  {
    EmptySpec(0, 0);
    forall x, y, z ensures z in Resolve(FadbTable.zSpec, x, y) <==> z == 0 {
      EmptySpec(x, y);
    }
  }

  lemma FadbShapeBlocks()
    ensures NoBraces(FadbTable.nameTemplate)
    ensures forall x, y :: MakeBlock(FadbTable, x, y, 0) == FattyAcylBlock(x, y)
  {
    FadbNameOk();
    forall x, y ensures MakeBlock(FadbTable, x, y, 0) == FattyAcylBlock(x, y) {
      FadbBlock(x, y);
    }
  }

  /** FAdb (LipidGeneratorNode.cs:150) is a fatty-acyl table. */
  lemma FadbShape()
    ensures FattyAcylTable(FadbTable)
  {
    FadbTableOk();
    FadbShapeX();
    FadbShapeY();
    FadbShapeZ();
    FadbShapeBlocks();
  }

  lemma FattyAcylComplete(t: BlockTable, x: int, y: int)
    requires FattyAcylTable(t)
    requires 12 <= x <= 22 && 0 <= y <= x / 2 - 5
    ensures FattyAcylBlock(x, y) in Blocks(t)
  {
    assert y in Resolve(t.ySpec, x, 0) && 0 in Resolve(t.zSpec, x, y);
    XBlocksComplete(t, Resolve(t.xSpec, 0, 0), x, y, 0);
  }

  lemma FattyAcylSound(t: BlockTable, b: BuildingBlock)
    requires FattyAcylTable(t) && b in Blocks(t)
    ensures exists x, y :: 12 <= x <= 22 && 0 <= y <= x / 2 - 5 && b == FattyAcylBlock(x, y)
  {
    BlocksMembers(t, b);
    var x, y, z :| x in Resolve(t.xSpec, 0, 0) && BuildingBlocks.Admissible(t, x, y, z) && b == MakeBlock(t, x, y, z);
    assert z == 0;
    assert b == FattyAcylBlock(x, y);
  }

  lemma IntervalAscending(lo: int, hi: int)
    ensures Ascending(Interval(lo, hi))
  {
  }

  lemma FadbYAscending(x: int)
    requires 12 <= x <= 22
    ensures SpecOk(FadbTable.ySpec) && Ascending(Resolve(FadbTable.ySpec, x, 0))
  {
    FadbYSpec(x);
    IntervalAscending(0, x / 2 - 5);
  }

  lemma FadbIndicesAscending()
    ensures TableOk(FadbTable) && AscendingIndices(FadbTable, Resolve(FadbTable.xSpec, 0, 0))
  {
    var t := FadbTable;
    FadbTableOk();
    FadbXSpec();
    IntervalAscending(12, 22);
    forall x | x in Resolve(t.xSpec, 0, 0) ensures Ascending(Resolve(t.ySpec, x, 0)) {
      IntervalMember(12, 22, x);
      FadbYAscending(x);
    }
    forall x, y | x in Resolve(t.xSpec, 0, 0) && y in Resolve(t.ySpec, x, 0)
      ensures Ascending(Resolve(t.zSpec, x, y))
    {
      EmptySpec(x, y);
    }
  }

  /** FAdb's x range 12..22, y ranges 0..x/2 - 5 and z range [0] are all
      ascending, so its blocks come in strictly ascending (x, y, z) order. */
  lemma FadbAscending()
    ensures TableOk(FadbTable) && IndexAscending(Blocks(FadbTable))
    ensures forall p, q :: 0 <= p < q < |Blocks(FadbTable)| ==> Blocks(FadbTable)[p] != Blocks(FadbTable)[q]
  {
    FadbIndicesAscending();
    BlocksAscending(FadbTable);
  }

  /** A fatty-acyl table holds exactly the fatty acyls of 12 to 22 carbons
      with at most x/2 - 5 double bonds, named "FA x:y" with the formula
      CxH2(x-y)O2; FadbShape shows that FAdb is one. */
  lemma FattyAcylMembers(t: BlockTable, b: BuildingBlock)
    requires FattyAcylTable(t)
    ensures b in Blocks(t) <==>
      exists x, y :: 12 <= x <= 22 && 0 <= y <= x / 2 - 5 && b == FattyAcylBlock(x, y)
  {
    if b in Blocks(t) {
      FattyAcylSound(t, b);
    }
    if exists x, y :: 12 <= x <= 22 && 0 <= y <= x / 2 - 5 && b == FattyAcylBlock(x, y) {
      var x, y :| 12 <= x <= 22 && 0 <= y <= x / 2 - 5 && b == FattyAcylBlock(x, y);
      FattyAcylComplete(t, x, y);
    }
  }

  // ---------------------------------------------------------------------
  // The class table (LipidGeneratorNode.cs:175-237)
  // ---------------------------------------------------------------------

  const ClassPC := ClassDef("PC", "PC x:y", "PC r1-r2", "FA ", "", "C8H16O4NP", "FA", "FA", "", "")
  const ClassPCO := ClassDef("PC O", "PC O-x:y", "PC O-r1-r2", "FA ", "", "C8H18O3NP", "FA", "FA", "", "")
  const ClassLPC := ClassDef("LPC", "LPC x:y", "LPC r1", "FA ", "", "C8H18O5NP", "FA", "", "", "")
  const ClassLPCO := ClassDef("LPC O", "LPC O-x:y", "LPC O-r1", "FA ", "", "C8H20O4NP", "FA", "", "", "")
  const ClassPE := ClassDef("PE", "PE x:y", "PE r1-r2", "FA ", "", "C5H10O4NP", "FA", "FA", "", "")
  const ClassPEO := ClassDef("PE O", "PE O-x:y", "PE O-r1-r2", "FA ", "", "C5H12O3NP", "FA", "FA", "", "")
  const ClassLPE := ClassDef("LPE", "LPE x:y", "LPE r1", "FA ", "", "C5H12O5NP", "FA", "", "", "")
  const ClassLPEO := ClassDef("LPE O", "LPE O-x:y", "LPE O-r1", "FA ", "", "C5H14NO4P", "FA", "", "", "")
  const ClassPS := ClassDef("PS", "PS x:y", "PS r1-r2", "FA ", "", "C6H10NO6P", "FA", "FA", "", "")
  const ClassLPS := ClassDef("LPS", "LPS x:y", "LPS r1", "FA ", "", "C6H12NO7P", "FA", "", "", "")
  const ClassPI := ClassDef("PI", "PI x:y", "PI r1-r2", "FA ", "", "C9H15O9P", "FA", "FA", "", "")
  const ClassLPI := ClassDef("LPI", "LPI x:y", "LPI r1", "FA ", "", "C9H17O10P", "FA", "", "", "")
  const ClassPA := ClassDef("PA", "PA x:y", "PA r1-r2", "FA ", "", "C3H5O4P", "FA", "FA", "", "")
  const ClassPAO := ClassDef("PA O", "PA O-x:y", "PA O-r1-r2", "FA ", "", "C3H7O3P", "FA", "FA", "", "")
  const ClassLPA := ClassDef("LPA", "LPA x:y", "LPA r1", "FA ", "", "C3H7O5P", "FA", "", "", "")
  const ClassLPAO := ClassDef("LPA O", "LPA O-x:y", "LPAO r1", "FA ", "", "C3H9O4P", "FA", "", "", "")
  /** Built by the source but bound to no key: "PG" names the LPG class. */
  const ClassPG := ClassDef("PG", "PG x:y", "PG r1-r2", "FA ", "", "C6H11O6", "FA", "FA", "", "")
  const ClassLPG := ClassDef("LPG", "LPG x:y", "LPG r1", "FA ", "", "C6H13O7P", "FA", "", "", "")
  const ClassCL := ClassDef("CL", "CL x:y", "CL r1-r2-r3-r4", "FA ", "", "C9H14O9P2", "FA", "FA", "FA", "FA")
  const ClassCer := ClassDef("Cer", "Cer dx:y", "Cer r1-r2", "SPH", "", "", "SPH", "FA", "", "")
  const ClassSM := ClassDef("SM", "SM dx:y", "SM r1-r2", "SPH", "", "C5H12N2O3P", "SPH", "FA", "", "")
  const ClassHexCer := ClassDef("HexCer", "HexCer dx:y", "HexCer r1-r2", "SPH", "", "C6H10O5", "SPH", "FA", "", "")
  const ClassTAG := ClassDef("TAG", "TAG x:y", "TAG r1-r2-r3", "FA ", "", "C3H2", "FA", "FA", "FA", "")
  const ClassDAG := ClassDef("DAG", "DAG x:y", "DAG r1-r2", "FA ", "", "C3H4O", "FA", "FA", "", "")
  const ClassMAG := ClassDef("MAG", "MAG x:y", "MAG r1", "FA ", "", "C3H4O", "FA", "", "", "")

  /** allClasses (LipidGeneratorNode.cs:209-237). */
  const ClassTable: map<string, ClassDef> := map[
    "PC" := ClassPC, "PC O" := ClassPCO, "LPC" := ClassLPC, "LPC O" := ClassLPCO,
    "PE" := ClassPE, "PE O" := ClassPEO, "LPE" := ClassLPE, "LPE O" := ClassLPEO,
    "PS" := ClassPS, "LPS" := ClassLPS, "PI" := ClassPI, "LPI" := ClassLPI,
    "PA" := ClassPA, "PA O" := ClassPAO, "LPA" := ClassLPA, "LPA O" := ClassLPAO,
    "PG" := ClassLPG, "LPG" := ClassLPG, "CL" := ClassCL,
    "TAG" := ClassTAG, "DAG" := ClassDAG, "MAG" := ClassMAG,
    "Cer" := ClassCer, "HexCer" := ClassHexCer, "SM" := ClassSM]

  /** A class table: class key to class definition. */
  type ClassMap = map<string, ClassDef>

  /** Every class of a table can be built over the collections. */
  predicate ClassesOk(classes: ClassMap, bb: Collections)
  {
    forall key :: key in classes ==> ClassOk(classes[key], bb)
  }

  /** The collections every class draws from. */
  predicate HasCollections(bb: Collections)
  {
    "" in bb && "FA" in bb && "SPH" in bb
  }

  // Each group of classes is well formed; the table lemma combines them.

  lemma DiacylOk(bb: Collections)
    requires HasCollections(bb)
    ensures ClassOk(ClassPC, bb) && ClassOk(ClassPCO, bb) && ClassOk(ClassPE, bb) && ClassOk(ClassPEO, bb)
  {
  }

  lemma DiacylAcidOk(bb: Collections)
    requires HasCollections(bb)
    ensures ClassOk(ClassPS, bb) && ClassOk(ClassPI, bb) && ClassOk(ClassPA, bb) && ClassOk(ClassPAO, bb)
  {
  }

  lemma LysoOk(bb: Collections)
    requires HasCollections(bb)
    ensures ClassOk(ClassLPC, bb) && ClassOk(ClassLPCO, bb) && ClassOk(ClassLPE, bb) && ClassOk(ClassLPEO, bb)
  {
  }

  lemma LysoAcidOk(bb: Collections)
    requires HasCollections(bb)
    ensures ClassOk(ClassLPS, bb) && ClassOk(ClassLPI, bb) && ClassOk(ClassLPA, bb)
    ensures ClassOk(ClassLPAO, bb) && ClassOk(ClassLPG, bb)
  {
  }

  lemma CardiolipinOk(bb: Collections)
    requires HasCollections(bb)
    ensures ClassOk(ClassCL, bb) && ClassOk(ClassTAG, bb)
  {
  }

  lemma GlycerolipidOk(bb: Collections)
    requires HasCollections(bb)
    ensures ClassOk(ClassDAG, bb) && ClassOk(ClassMAG, bb)
  {
  }

  lemma SphingolipidOk(bb: Collections)
    requires HasCollections(bb)
    ensures ClassOk(ClassCer, bb) && ClassOk(ClassSM, bb) && ClassOk(ClassHexCer, bb)
  {
  }

  /** Every class in the table can be built over the generator's collections:
      its keys are present, its templates are brace-free and its delete token
      is not empty. */
  lemma ClassTableOk(bb: Collections)
    requires HasCollections(bb)
    ensures ClassesOk(ClassTable, bb)
  {
    DiacylOk(bb);
    DiacylAcidOk(bb);
    LysoOk(bb);
    LysoAcidOk(bb);
    CardiolipinOk(bb);
    GlycerolipidOk(bb);
    SphingolipidOk(bb);
  }

  // ---------------------------------------------------------------------
  // The FA list (LipidGeneratorNode.cs:153-159)
  // ---------------------------------------------------------------------

  /** FAdb.Find for every selected fatty-acyl key, in order; None stands for
      the null that Find returns when no name contains the key. */
  function Lookups(fadb: seq<BuildingBlock>, keys: seq<string>): seq<Option<BuildingBlock>>
  {
    seq(|keys|, k requires 0 <= k < |keys| => FindByName(fadb, keys[k]))
  }

  /** The loop that fills FA (LipidGeneratorNode.cs:156-159): entry k is the
      first FAdb block whose name contains key k, or null. */
  method FattyAcylList(fadb: seq<BuildingBlock>, keys: seq<string>) returns (fa: seq<Option<BuildingBlock>>)
    ensures |fa| == |keys|
    ensures forall k :: 0 <= k < |keys| ==> fa[k] == FindByName(fadb, keys[k])
    ensures fa == Lookups(fadb, keys)
  {
    fa := [];
    var k := 0;
    while k < |keys|
      invariant 0 <= k <= |keys|
      invariant |fa| == k
      invariant forall m :: 0 <= m < k ==> fa[m] == FindByName(fadb, keys[m])
    {
      fa := fa + [FindByName(fadb, keys[k])];
      k := k + 1;
    }
  }

  /** Reading every entry of FA: all the blocks, or the position of the first
      null, on which the class constructors throw. */
  function Dereference(fa: seq<Option<BuildingBlock>>): (r: Result<seq<BuildingBlock>, nat>)
    ensures r.Success? ==> |r.value| == |fa| && forall k :: 0 <= k < |fa| ==> fa[k] == Some(r.value[k])
    ensures r.Failure? ==> r.error < |fa| && fa[r.error].None? && forall k :: 0 <= k < r.error ==> fa[k].Some?
    decreases |fa|
  {
    if fa == [] then Success([])
    else if fa[0].None? then Failure(0)
    else match Dereference(fa[1..])
      case Success(rest) => Success([fa[0].value] + rest)
      case Failure(k) => Failure(k + 1)
  }

  // ---------------------------------------------------------------------
  // The selection fold (LipidGeneratorNode.cs:239-252)
  // ---------------------------------------------------------------------

  /** The LipidCompound the fold appends: name, class and formula only. */
  datatype Lipid = Lipid(name: string, kind: string, composition: string)

  /** Why GenerateLipids throws: a fatty-acyl key no FAdb name contains (the
      null dereferenced in a class constructor), or a class key missing from
      the class table. */
  datatype GenError = UnmatchedFattyAcyl(key: string) | UnknownClass(key: string)

  function LipidOf(cc: CompositeCompound): Lipid
  {
    Lipid(cc.sumComp, cc.kind, cc.composition)
  }

  /** expectedLipids.Exists(x => x.Name == name). */
  predicate HasName(ls: seq<Lipid>, name: string)
  {
    exists k :: 0 <= k < |ls| && ls[k].name == name
  }

  predicate DistinctNames(ls: seq<Lipid>)
  {
    forall p, q :: 0 <= p < q < |ls| ==> ls[p].name != ls[q].name
  }

  /** The inner loop of the fold: each compound is appended unless a lipid of
      its sum composition is already on the list. */
  function AddDistinct(acc: seq<Lipid>, ccs: seq<CompositeCompound>): seq<Lipid>
    decreases |ccs|
  {
    if ccs == [] then acc
    else
      var prev := AddDistinct(acc, ccs[..|ccs| - 1]);
      var cc := ccs[|ccs| - 1];
      if HasName(prev, cc.sumComp) then prev else prev + [LipidOf(cc)]
  }

  /** Compound k is the first of its sum composition, and none is on acc. */
  predicate FirstOfName(acc: seq<Lipid>, ccs: seq<CompositeCompound>, k: nat)
    requires k < |ccs|
  {
    !HasName(acc, ccs[k].sumComp) && forall m :: 0 <= m < k ==> ccs[m].sumComp != ccs[k].sumComp
  }

  /** The fold only appends: the list it starts from stays a prefix. */
  lemma {:induction false} AddDistinctPrefix(acc: seq<Lipid>, ccs: seq<CompositeCompound>)
    ensures acc <= AddDistinct(acc, ccs)
    decreases |ccs|
  {
    if ccs != [] {
      AddDistinctPrefix(acc, ccs[..|ccs| - 1]);
    }
  }

  /** After the fold, a name is on the list exactly when it was before or is
      the sum composition of one of the compounds. */
  lemma {:induction false} AddDistinctNames(acc: seq<Lipid>, ccs: seq<CompositeCompound>, name: string)
    ensures HasName(AddDistinct(acc, ccs), name) <==>
      HasName(acc, name) || exists k :: 0 <= k < |ccs| && ccs[k].sumComp == name
    decreases |ccs|
  {
    if ccs != [] {
      var init := ccs[..|ccs| - 1];
      var prev := AddDistinct(acc, init);
      var cc := ccs[|ccs| - 1];
      AddDistinctNames(acc, init, name);
      if exists k :: 0 <= k < |init| && init[k].sumComp == name {
        var k :| 0 <= k < |init| && init[k].sumComp == name;
        assert ccs[k] == init[k];
      }
      if exists k :: 0 <= k < |ccs| && ccs[k].sumComp == name {
        var k :| 0 <= k < |ccs| && ccs[k].sumComp == name;
        if k < |init| {
          assert init[k] == ccs[k];
        }
      }
      if !HasName(prev, cc.sumComp) {
        var next := prev + [LipidOf(cc)];
        if HasName(next, name) {
          var k :| 0 <= k < |next| && next[k].name == name;
          if k < |prev| {
            assert prev[k].name == name;
          }
        }
        if HasName(prev, name) {
          var k :| 0 <= k < |prev| && prev[k].name == name;
          assert next[k].name == name;
        }
        assert next[|prev|].name == cc.sumComp;
      }
    }
  }

  /** The fold keeps names distinct: a compound is appended only when its sum
      composition is not on the list yet. */
  lemma {:induction false} AddDistinctDistinct(acc: seq<Lipid>, ccs: seq<CompositeCompound>)
    requires DistinctNames(acc)
    ensures DistinctNames(AddDistinct(acc, ccs))
    decreases |ccs|
  {
    if ccs != [] {
      var prev := AddDistinct(acc, ccs[..|ccs| - 1]);
      var cc := ccs[|ccs| - 1];
      AddDistinctDistinct(acc, ccs[..|ccs| - 1]);
      if !HasName(prev, cc.sumComp) {
        var next := prev + [LipidOf(cc)];
        forall p, q | 0 <= p < q < |next| ensures next[p].name != next[q].name {
          if q == |prev| {
            assert next[p] == prev[p];
          } else {
            assert next[p] == prev[p] && next[q] == prev[q];
          }
        }
      }
    }
  }

  /** First occurrence wins: the fold adds exactly the lipids of the compounds
      that are the first of their sum composition and not already listed. */
  lemma AddDistinctMembers(acc: seq<Lipid>, ccs: seq<CompositeCompound>, l: Lipid)
    ensures l in AddDistinct(acc, ccs) <==>
      l in acc || exists k :: 0 <= k < |ccs| && FirstOfName(acc, ccs, k) && l == LipidOf(ccs[k])
  {
    if l in AddDistinct(acc, ccs) {
      AddDistinctSound(acc, ccs, l);
    }
    if l in acc {
      AddDistinctPrefix(acc, ccs);
    }
    if exists k :: 0 <= k < |ccs| && FirstOfName(acc, ccs, k) && l == LipidOf(ccs[k]) {
      var k :| 0 <= k < |ccs| && FirstOfName(acc, ccs, k) && l == LipidOf(ccs[k]);
      AddDistinctFirst(acc, ccs, k);
    }
  }

  /** Being first of its name does not depend on the compounds after k. */
  lemma FirstOfNamePrefix(acc: seq<Lipid>, ccs: seq<CompositeCompound>, n: nat, k: nat)
    requires k < n <= |ccs|
    ensures ccs[..n][k] == ccs[k] && (FirstOfName(acc, ccs[..n], k) <==> FirstOfName(acc, ccs, k))
  {
    assert forall m :: 0 <= m < k ==> ccs[..n][m] == ccs[m];
  }

  /** One fold step: the last compound is appended exactly when its sum
      composition is on neither acc nor an earlier compound. */
  lemma AddDistinctLast(acc: seq<Lipid>, ccs: seq<CompositeCompound>)
    requires ccs != []
    ensures var n := |ccs| - 1;
      var prev := AddDistinct(acc, ccs[..n]);
      && AddDistinct(acc, ccs) == (if FirstOfName(acc, ccs, n) then prev + [LipidOf(ccs[n])] else prev)
  {
    var n := |ccs| - 1;
    var init := ccs[..n];
    var prev := AddDistinct(acc, init);
    var name := ccs[n].sumComp;
    AddDistinctNames(acc, init, name);
    forall m | 0 <= m < n ensures init[m] == ccs[m] {
    }
    assert HasName(prev, name) <==> !FirstOfName(acc, ccs, n);
  }

  /** Every lipid the fold adds comes from a compound that was first of its name. */
  lemma {:induction false} AddDistinctSound(acc: seq<Lipid>, ccs: seq<CompositeCompound>, l: Lipid)
    requires l in AddDistinct(acc, ccs)
    ensures l in acc || exists k :: 0 <= k < |ccs| && FirstOfName(acc, ccs, k) && l == LipidOf(ccs[k])
    decreases |ccs|
  {
    if ccs != [] {
      var n := |ccs| - 1;
      var init := ccs[..n];
      var prev := AddDistinct(acc, init);
      AddDistinctLast(acc, ccs);
      if l in prev {
        AddDistinctSound(acc, init, l);
        if l !in acc {
          var k :| 0 <= k < n && FirstOfName(acc, init, k) && l == LipidOf(init[k]);
          FirstOfNamePrefix(acc, ccs, n, k);
        }
      } else {
        assert l == LipidOf(ccs[n]) && FirstOfName(acc, ccs, n);
      }
    }
  }

  /** The compound that is first of its name is added. */
  lemma {:induction false} AddDistinctFirst(acc: seq<Lipid>, ccs: seq<CompositeCompound>, k: nat)
    requires k < |ccs| && FirstOfName(acc, ccs, k)
    ensures LipidOf(ccs[k]) in AddDistinct(acc, ccs)
    decreases |ccs|
  {
    var n := |ccs| - 1;
    var init := ccs[..n];
    var prev := AddDistinct(acc, init);
    AddDistinctLast(acc, ccs);
    if k < n {
      FirstOfNamePrefix(acc, ccs, n, k);
      AddDistinctFirst(acc, init, k);
      assert LipidOf(ccs[k]) in prev;
    }
  }

  /** The inner loop of the fold (LipidGeneratorNode.cs:242-250). */
  method AddLipids(acc: seq<Lipid>, ccs: seq<CompositeCompound>) returns (r: seq<Lipid>)
    ensures r == AddDistinct(acc, ccs)
  {
    r := acc;
    var k := 0;
    while k < |ccs|
      invariant 0 <= k <= |ccs|
      invariant r == AddDistinct(acc, ccs[..k])
    {
      var lipid := ccs[k];
      if !HasName(r, lipid.sumComp) {
        r := r + [Lipid(lipid.sumComp, lipid.kind, lipid.composition)];
      }
      assert ccs[..k + 1][..k] == ccs[..k];
      k := k + 1;
    }
    assert ccs[..k] == ccs;
  }

  /** The compound lists of the classes, by class key. */
  type CompoundLists = map<string, seq<CompositeCompound>>

  /** allClasses (LipidGeneratorNode.cs:175-237): every class key bound to the
      compound list of its class, built over the generator's collections. */
  function AllClasses(bb: Collections): (r: CompoundLists)
    requires HasCollections(bb)
    ensures r.Keys == ClassTable.Keys
  {
    ClassTableOk(bb);
    map key | key in ClassTable :: Compounds(ClassTable[key], bb)
  }

  lemma AllClassesAt(bb: Collections, key: string)
    requires HasCollections(bb) && key in ClassTable
    ensures ClassOk(ClassTable[key], bb) && AllClasses(bb)[key] == Compounds(ClassTable[key], bb)
  {
    ClassTableOk(bb);
  }

  /** The selection loop (LipidGeneratorNode.cs:239-252): each class key is
      looked up in turn and its compounds folded into the list. */
  function Collect(lists: CompoundLists, keys: seq<string>): Result<seq<Lipid>, GenError>
    decreases |keys|
  {
    if keys == [] then Success([])
    else match Collect(lists, keys[..|keys| - 1])
      case Failure(e) => Failure(e)
      case Success(prev) =>
        var key := keys[|keys| - 1];
        if key !in lists then Failure(UnknownClass(key))
        else Success(AddDistinct(prev, lists[key]))
  }

  /** Once a key fails, the whole selection fails with it. */
  lemma {:induction false} CollectStops(lists: CompoundLists, keys: seq<string>, n: nat)
    requires n <= |keys| && Collect(lists, keys[..n]).Failure?
    ensures Collect(lists, keys) == Collect(lists, keys[..n])
    decreases |keys| - n
  {
    if n < |keys| {
      assert keys[..n + 1][..n] == keys[..n];
      CollectStops(lists, keys, n + 1);
    } else {
      assert keys[..n] == keys;
    }
  }

  /** The selection succeeds exactly when every key is in the class table;
      otherwise it fails on the first key that is not. */
  lemma {:induction false} CollectOutcome(lists: CompoundLists, keys: seq<string>)
    ensures Collect(lists, keys).Success? <==> forall k :: 0 <= k < |keys| ==> keys[k] in lists
    ensures Collect(lists, keys).Failure? ==>
      exists k :: 0 <= k < |keys| && keys[k] !in lists
        && (forall m :: 0 <= m < k ==> keys[m] in lists)
        && Collect(lists, keys).error == UnknownClass(keys[k])
    decreases |keys|
  {
    if keys != [] {
      var n := |keys| - 1;
      var init := keys[..n];
      CollectOutcome(lists, init);
      forall m | 0 <= m < n ensures init[m] == keys[m] {
      }
      if Collect(lists, init).Failure? {
        var k :| 0 <= k < n && init[k] !in lists
          && (forall m :: 0 <= m < k ==> init[m] in lists)
          && Collect(lists, init).error == UnknownClass(init[k]);
        assert keys[k] !in lists;
      }
    }
  }

  /** The output follows selection order: the output for the first k keys
      is a prefix of the output for all of them. */
  lemma {:induction false} CollectPrefix(lists: CompoundLists, keys: seq<string>, k: nat)
    requires Collect(lists, keys).Success? && k <= |keys|
    ensures Collect(lists, keys[..k]).Success?
    ensures var pre, all := Collect(lists, keys[..k]).value, Collect(lists, keys).value;
      |pre| <= |all| && all[..|pre|] == pre
    decreases |keys|
  {
    if k < |keys| {
      var init := keys[..|keys| - 1];
      assert init[..k] == keys[..k];
      CollectPrefix(lists, init, k);
      var prev := Collect(lists, init).value;
      AddDistinctPrefix(prev, lists[keys[|keys| - 1]]);
    } else {
      assert keys[..k] == keys;
    }
  }

  /** Lipids on the output have pairwise distinct names. */
  lemma {:induction false} CollectDistinct(lists: CompoundLists, keys: seq<string>)
    requires Collect(lists, keys).Success?
    ensures DistinctNames(Collect(lists, keys).value)
    decreases |keys|
  {
    if keys != [] {
      var init := keys[..|keys| - 1];
      CollectDistinct(lists, init);
      AddDistinctDistinct(Collect(lists, init).value, lists[keys[|keys| - 1]]);
    }
  }

  /** Every lipid on the output comes from a compound of a selected class. */
  lemma {:induction false} CollectSound(lists: CompoundLists, keys: seq<string>, l: Lipid)
    requires Collect(lists, keys).Success? && l in Collect(lists, keys).value
    ensures exists k, cc :: 0 <= k < |keys| && keys[k] in lists && cc in lists[keys[k]] && l == LipidOf(cc)
    decreases |keys|
  {
    var n := |keys| - 1;
    var init := keys[..n];
    var prev := Collect(lists, init).value;
    var ccs := lists[keys[n]];
    AddDistinctMembers(prev, ccs, l);
    if l in prev {
      CollectSound(lists, init, l);
      var k, cc :| 0 <= k < n && init[k] in lists && cc in lists[init[k]] && l == LipidOf(cc);
      assert keys[k] == init[k];
    } else {
      var j :| 0 <= j < |ccs| && FirstOfName(prev, ccs, j) && l == LipidOf(ccs[j]);
      assert ccs[j] in ccs;
    }
  }

  /** Every compound of a selected class has its sum composition on the output. */
  lemma {:induction false} CollectComplete(lists: CompoundLists, keys: seq<string>, k: nat, cc: CompositeCompound)
    requires Collect(lists, keys).Success?
    requires k < |keys| && keys[k] in lists && cc in lists[keys[k]]
    ensures HasName(Collect(lists, keys).value, cc.sumComp)
    decreases |keys|
  {
    var n := |keys| - 1;
    var init := keys[..n];
    var prev := Collect(lists, init).value;
    var ccs := lists[keys[n]];
    assert Collect(lists, keys).value == AddDistinct(prev, ccs);
    if k < n {
      assert init[k] == keys[k];
      CollectComplete(lists, init, k, cc);
      AddDistinctNames(prev, ccs, cc.sumComp);
    } else {
      assert k == n;
      var j :| 0 <= j < |ccs| && ccs[j] == cc;
      AddDistinctNames(prev, ccs, cc.sumComp);
    }
  }

  lemma PGEntry()
    ensures "PG" in ClassTable && "LPG" in ClassTable
    ensures ClassTable["PG"] == ClassLPG && ClassTable["LPG"] == ClassLPG
  {
  }

  /** Selecting one known class folds its compounds into the empty list. */
  lemma CollectSingle(lists: CompoundLists, key: string)
    requires key in lists
    ensures Collect(lists, [key]) == Success(AddDistinct([], lists[key]))
  {
    assert [key][..0] == [];
  }

  /** "PG" is looked up as the LPG class (LipidGeneratorNode.cs:227):
      selecting it gives the LPG lipids, all of class LPG. */
  lemma PGIsLPG(bb: Collections)
    requires HasCollections(bb)
    ensures Collect(AllClasses(bb), ["PG"]) == Collect(AllClasses(bb), ["LPG"])
    ensures Collect(AllClasses(bb), ["PG"]).Success?
    ensures forall l :: l in Collect(AllClasses(bb), ["PG"]).value ==> l.kind == "LPG"
  {
    var lists := AllClasses(bb);
    var ccs := Compounds(ClassLPG, bb);
    PGEntry();
    AllClassesAt(bb, "PG");
    AllClassesAt(bb, "LPG");
    assert lists["PG"] == ccs && lists["LPG"] == ccs;
    CollectSingle(lists, "PG");
    CollectSingle(lists, "LPG");
    forall l | l in AddDistinct([], ccs) ensures l.kind == "LPG" {
      AddDistinctMembers([], ccs, l);
      var k :| 0 <= k < |ccs| && FirstOfName([], ccs, k) && l == LipidOf(ccs[k]);
      CompoundsKind(ClassLPG, bb, ccs[k]);
    }
  }

  // ---------------------------------------------------------------------
  // Class sizes (LipidGeneratorNode.cs:175-207 over 381-412)
  // ---------------------------------------------------------------------

  /** Every class draws its first slot from FA, or its first from SPH and its
      second from FA. */
  lemma ClassesUseFattyAcyls(key: string)
    requires key in ClassTable
    ensures ClassTable[key].r1 == "FA" || (ClassTable[key].r1 == "SPH" && ClassTable[key].r2 == "FA")
  {
  }

  /** With no fatty acyl selected, no class gives a compound. */
  lemma NoFattyAcylNoCompounds(bb: Collections, key: string)
    requires HasCollections(bb) && bb["FA"] == [] && key in ClassTable
    ensures AllClasses(bb)[key] == []
  {
    AllClassesAt(bb, key);
    ClassesUseFattyAcyls(key);
    EmptySlotNoCompounds(ClassTable[key], bb);
  }

  /** The two-chain classes: slots 1 and 2 on FA, slots 3 and 4 on the empty block. */
  lemma TwoChainClasses(key: string)
    requires key in {"PC", "PC O", "PE", "PE O", "PS", "PI", "PA", "PA O", "DAG"}
    ensures key in ClassTable
    ensures var c := ClassTable[key]; c.r1 == "FA" && c.r2 == "FA" && c.r3 == "" && c.r4 == ""
  {
  }

  /** The one-chain classes: slot 1 on FA, the others on the empty block;
      "PG" is among them because it is looked up as LPG. */
  lemma OneChainClasses(key: string)
    requires key in {"LPC", "LPC O", "LPE", "LPE O", "LPS", "LPI", "LPA", "LPA O", "PG", "LPG", "MAG"}
    ensures key in ClassTable
    ensures var c := ClassTable[key]; c.r1 == "FA" && c.r2 == "" && c.r3 == "" && c.r4 == ""
  {
  }

  /** The sphingolipid classes: slot 1 on SPH, slot 2 on FA, the others empty. */
  lemma SphingolipidClasses(key: string)
    requires key in {"Cer", "SM", "HexCer"}
    ensures key in ClassTable
    ensures var c := ClassTable[key]; c.r1 == "SPH" && c.r2 == "FA" && c.r3 == "" && c.r4 == ""
  {
  }

  /** The two-chain classes give n (n + 1) / 2 compounds for n selected
      fatty acyls: one per unordered pair. */
  lemma TwoChainCount(bb: Collections, key: string)
    requires HasCollections(bb) && |bb[""]| == 1
    requires key in {"PC", "PC O", "PE", "PE O", "PS", "PI", "PA", "PA O", "DAG"}
    ensures key in ClassTable
    ensures |AllClasses(bb)[key]| == |bb["FA"]| * (|bb["FA"]| + 1) / 2
  {
    TwoChainClasses(key);
    AllClassesAt(bb, key);
    PairCompounds(ClassTable[key], bb);
  }

  /** The one-chain classes give one compound per selected fatty acyl. */
  lemma OneChainCount(bb: Collections, key: string)
    requires HasCollections(bb) && |bb[""]| == 1
    requires key in {"LPC", "LPC O", "LPE", "LPE O", "LPS", "LPI", "LPA", "LPA O", "PG", "LPG", "MAG"}
    ensures key in ClassTable
    ensures |AllClasses(bb)[key]| == |bb["FA"]|
  {
    OneChainClasses(key);
    AllClassesAt(bb, key);
    OneSlotCompounds(ClassTable[key], bb);
  }

  /** The sphingolipid classes pair every sphingoid base with every fatty acyl. */
  lemma SphingolipidCount(bb: Collections, key: string)
    requires HasCollections(bb) && |bb[""]| == 1
    requires key in {"Cer", "SM", "HexCer"}
    ensures key in ClassTable
    ensures |AllClasses(bb)[key]| == |bb["SPH"]| * |bb["FA"]|
  {
    SphingolipidClasses(key);
    AllClassesAt(bb, key);
    ProductCompounds(ClassTable[key], bb);
  }

  /** Every class draws each slot from the empty list, FA or SPH. */
  lemma ClassSlots(key: string)
    requires key in ClassTable
    ensures var c := ClassTable[key];
      && c.r1 in {"", "FA", "SPH"} && c.r2 in {"", "FA", "SPH"}
      && c.r3 in {"", "FA", "SPH"} && c.r4 in {"", "FA", "SPH"}
  {
  }

  /** One selected fatty acyl (and one block in SPH and in the empty list)
      gives every class exactly one compound, even the four-chain CL. */
  lemma SingleFattyAcylCount(bb: Collections, key: string)
    requires HasCollections(bb) && |bb[""]| == 1 && |bb["FA"]| == 1 && |bb["SPH"]| == 1
    requires key in ClassTable
    ensures |AllClasses(bb)[key]| == 1
  {
    ClassSlots(key);
    AllClassesAt(bb, key);
    SingleCompound(ClassTable[key], bb);
  }

  /** The sum name of four palmitoyl chains: with 64 carbons and no double
      bond, "CL x:y" reads "CL 64:0" (stated on parameters, so that the
      verifier does not evaluate the substitution on literals). */
  lemma CardiolipinSumName(t: string, x: int, y: int, z: int)
    requires t == ClassCL.sumTemplate && x == 64 && y == 0 && z == 0
    ensures SubstXYZ(t, IntToDec(x), IntToDec(y), IntToDec(z)) == "CL 64:0"
  {
    TwoDigitDec(x);
    assert IntToDec(y) == "0";
  }

  /** A class drawing all four chains from a one-block FA list that holds a
      16:0 fatty acyl gives one compound, named "CL 64:0" under CL's sum
      template. */
  lemma FourPalmitoyl(c: ClassDef, bb: Collections, b: BuildingBlock)
    requires ClassOk(c, bb) && c.r1 == "FA" && c.r2 == "FA" && c.r3 == "FA" && c.r4 == "FA"
    requires c.sumTemplate == ClassCL.sumTemplate
    requires bb["FA"] == [b] && b.x == 16 && b.y == 0 && b.z == 0
    ensures |Compounds(c, bb)| == 1 && Compounds(c, bb)[0].sumComp == "CL 64:0"
  {
    var p := Pick(0, 0, 0, 0);
    SingleCompound(c, bb);
    CompoundAtSpec(c, bb, p);
    assert bb[c.r1][p.i] == b && bb[c.r2][p.j] == b && bb[c.r3][p.g] == b && bb[c.r4][p.f] == b;
    CardiolipinSumName(c.sumTemplate, b.x + b.x + b.x + b.x, b.y + b.y + b.y + b.y, b.z + b.z + b.z + b.z);
  }

  /** End to end for CL: one selected fatty acyl with 16 carbons and no
      double bond fills all four chains, and the single compound is named
      "CL 64:0". */
  lemma CardiolipinSingle(bb: Collections, b: BuildingBlock)
    requires HasCollections(bb) && bb["FA"] == [b]
    requires b.x == 16 && b.y == 0 && b.z == 0
    ensures |AllClasses(bb)["CL"]| == 1 && AllClasses(bb)["CL"][0].sumComp == "CL 64:0"
  {
    AllClassesAt(bb, "CL");
    assert ClassTable["CL"] == ClassCL;
    FourPalmitoyl(ClassCL, bb, b);
  }


  // ---------------------------------------------------------------------
  // GenerateLipids (LipidGeneratorNode.cs:140-252)
  // ---------------------------------------------------------------------

  /** The three block lists built before anything is selected: NAN, FAdb and
      SPH (LipidGeneratorNode.cs:149-151). */
  datatype Bases = Bases(nan: seq<BuildingBlock>, fadb: seq<BuildingBlock>, sph: seq<BuildingBlock>)

  function NanList(): seq<BuildingBlock>
  {
    NanTableOk();
    Blocks(NanTable)
  }

  function FadbList(): seq<BuildingBlock>
  {
    FadbTableOk();
    Blocks(FadbTable)
  }

  function SphList(): seq<BuildingBlock>
  {
    SphTableOk();
    Blocks(SphTable)
  }

  /** The block lists of the generator's own tables. */
  function SourceBases(): Bases
  {
    Bases(NanList(), FadbList(), SphList())
  }

  /** NAN and SPH hold one block each. */
  lemma SingleBlockLists()
    ensures |SourceBases().nan| == 1 && |SourceBases().sph| == 1
  {
    NanBlocks();
    SphBlocks();
  }

  /** FAdb holds exactly the fatty acyls of 12 to 22 carbons with at most
      x/2 - 5 double bonds. */
  lemma FadbListMembers(b: BuildingBlock)
    ensures b in SourceBases().fadb <==>
      exists x, y :: 12 <= x <= 22 && 0 <= y <= x / 2 - 5 && b == FattyAcylBlock(x, y)
  {
    FadbShape();
    FattyAcylMembers(FadbTable, b);
  }

  /** FAdb lists its fatty acyls by ascending chain length, then ascending
      number of double bonds, so none occurs twice. */
  lemma FadbListAscending()
    ensures IndexAscending(SourceBases().fadb)
    ensures forall p, q :: 0 <= p < q < |SourceBases().fadb| ==> SourceBases().fadb[p] != SourceBases().fadb[q]
  {
    FadbAscending();
  }

  /** allBB (LipidGeneratorNode.cs:161-168) over a given FA list. */
  function AllBlocks(bases: Bases, fa: seq<BuildingBlock>): (bb: Collections)
    ensures HasCollections(bb) && bb["FA"] == fa && bb[""] == bases.nan && bb["SPH"] == bases.sph
  {
    map["" := bases.nan, "FAdb" := bases.fadb, "FA" := fa, "SPH" := bases.sph]
  }

  /** GenerateLipids over given block lists. FA is filled by name lookup in
      FAdb; every class is built before any is selected, so a fatty-acyl key
      that no FAdb name contains leaves a null that the first class
      constructor dereferences, whatever classes are selected. Otherwise the
      selected classes are folded in selection order. */
  function GenerateFrom(bases: Bases, classKeys: seq<string>, faKeys: seq<string>): Result<seq<Lipid>, GenError>
  {
    match Dereference(Lookups(bases.fadb, faKeys))
    case Failure(k) => Failure(UnmatchedFattyAcyl(faKeys[k]))
    case Success(fa) => Collect(AllClasses(AllBlocks(bases, fa)), classKeys)
  }

  /** What GenerateLipids returns for the selected classes and fatty acyls. */
  function Generate(classKeys: seq<string>, faKeys: seq<string>): Result<seq<Lipid>, GenError>
  {
    GenerateFrom(SourceBases(), classKeys, faKeys)
  }

  /** GenerateLipids: build the three block lists, then fill FA and fold the
      selected classes. */
  method GenerateLipids(classKeys: seq<string>, faKeys: seq<string>) returns (r: Result<seq<Lipid>, GenError>)
    ensures r == Generate(classKeys, faKeys)
  {
    TablesOk();
    var nan := BuildBlockList(NanTable);
    var fadb := BuildBlockList(FadbTable);
    var sph := BuildBlockList(SphTable);
    r := GenerateWith(Bases(nan, fadb, sph), classKeys, faKeys);
  }

  /** The part of GenerateLipids after the block lists are built: fill FA,
      then look up each selected class and fold its compounds into the
      result. The class lists are built when selected rather than all up
      front; building one has no effect besides its result, and the null
      check before the loop keeps the order of the failures. */
  method GenerateWith(bases: Bases, classKeys: seq<string>, faKeys: seq<string>) returns (r: Result<seq<Lipid>, GenError>)
    ensures r == GenerateFrom(bases, classKeys, faKeys)
  {
    var slots := FattyAcylList(bases.fadb, faKeys);
    var fa := Dereference(slots);
    if fa.Failure? {
      return Failure(UnmatchedFattyAcyl(faKeys[fa.error]));
    }
    var allBB := map["" := bases.nan, "FAdb" := bases.fadb, "FA" := fa.value, "SPH" := bases.sph];
    assert allBB == AllBlocks(bases, fa.value);
    r := CollectLipids(allBB, classKeys);
  }

  /** The selection loop (LipidGeneratorNode.cs:239-252): look up each
      selected class in turn and fold its compounds into the list, failing
      on the first unknown key. */
  method CollectLipids(allBB: Collections, classKeys: seq<string>) returns (r: Result<seq<Lipid>, GenError>)
    requires HasCollections(allBB)
    ensures r == Collect(AllClasses(allBB), classKeys)
  {
    ghost var lists := AllClasses(allBB);
    ClassTableOk(allBB);
    var expectedLipids: seq<Lipid> := [];
    var k := 0;
    while k < |classKeys|
      invariant 0 <= k <= |classKeys|
      invariant Collect(lists, classKeys[..k]) == Success(expectedLipids)
    {
      var key := classKeys[k];
      assert classKeys[..k + 1][..k] == classKeys[..k];
      if key !in ClassTable {
        CollectStops(lists, classKeys, k + 1);
        return Failure(UnknownClass(key));
      }
      var tempClass := BuildCompoundList(ClassTable[key], allBB);
      AllClassesAt(allBB, key);
      expectedLipids := AddLipids(expectedLipids, tempClass);
      k := k + 1;
    }
    assert classKeys[..k] == classKeys;
    r := Success(expectedLipids);
  }

  /** Every fatty-acyl key names a block of FAdb. */
  predicate AllMatched(fadb: seq<BuildingBlock>, faKeys: seq<string>)
  {
    forall k :: 0 <= k < |faKeys| ==> FindByName(fadb, faKeys[k]).Some?
  }

  /** Filling FA succeeds exactly when every key is matched, and then block k
      is the first FAdb block whose name contains key k. */
  lemma LookupsMatched(fadb: seq<BuildingBlock>, faKeys: seq<string>)
    ensures Dereference(Lookups(fadb, faKeys)).Success? <==> AllMatched(fadb, faKeys)
    ensures AllMatched(fadb, faKeys) ==>
      var fa := Dereference(Lookups(fadb, faKeys)).value;
      |fa| == |faKeys| && forall k :: 0 <= k < |faKeys| ==> FindByName(fadb, faKeys[k]) == Some(fa[k])
  {
    var slots := Lookups(fadb, faKeys);
    if Dereference(slots).Failure? {
      var k := Dereference(slots).error;
      assert slots[k] == FindByName(fadb, faKeys[k]);
      assert !AllMatched(fadb, faKeys);
    } else {
      forall k | 0 <= k < |faKeys| ensures FindByName(fadb, faKeys[k]).Some? {
        assert slots[k] == FindByName(fadb, faKeys[k]);
      }
    }
  }

  /** Generation succeeds exactly when every fatty-acyl key is matched and
      every class key is in the class table. It fails on the first unmatched
      fatty-acyl key if there is one, and otherwise on the first unknown
      class key. */
  lemma GenerateOutcome(bases: Bases, classKeys: seq<string>, faKeys: seq<string>)
    ensures GenerateFrom(bases, classKeys, faKeys).Success? <==>
      AllMatched(bases.fadb, faKeys) && forall k :: 0 <= k < |classKeys| ==> classKeys[k] in ClassTable
    ensures !AllMatched(bases.fadb, faKeys) ==>
      exists k :: 0 <= k < |faKeys| && FindByName(bases.fadb, faKeys[k]).None?
        && (forall m :: 0 <= m < k ==> FindByName(bases.fadb, faKeys[m]).Some?)
        && GenerateFrom(bases, classKeys, faKeys) == Failure(UnmatchedFattyAcyl(faKeys[k]))
    ensures AllMatched(bases.fadb, faKeys) && GenerateFrom(bases, classKeys, faKeys).Failure? ==>
      exists k :: 0 <= k < |classKeys| && classKeys[k] !in ClassTable
        && (forall m :: 0 <= m < k ==> classKeys[m] in ClassTable)
        && GenerateFrom(bases, classKeys, faKeys) == Failure(UnknownClass(classKeys[k]))
  {
    var slots := Lookups(bases.fadb, faKeys);
    LookupsMatched(bases.fadb, faKeys);
    match Dereference(slots)
    case Failure(k) =>
      forall m | 0 <= m < k ensures FindByName(bases.fadb, faKeys[m]).Some? {
        assert slots[m] == FindByName(bases.fadb, faKeys[m]);
      }
      assert slots[k] == FindByName(bases.fadb, faKeys[k]);
    case Success(fa) =>
      CollectOutcome(AllClasses(AllBlocks(bases, fa)), classKeys);
  }

  /** The names on the generated list are pairwise distinct. */
  lemma GenerateDistinct(bases: Bases, classKeys: seq<string>, faKeys: seq<string>)
    requires GenerateFrom(bases, classKeys, faKeys).Success?
    ensures DistinctNames(GenerateFrom(bases, classKeys, faKeys).value)
  {
    var fa := Dereference(Lookups(bases.fadb, faKeys)).value;
    CollectDistinct(AllClasses(AllBlocks(bases, fa)), classKeys);
  }

  /** Selecting no class gives an empty list when the fatty acyls match. */
  lemma GenerateNoClasses(bases: Bases, faKeys: seq<string>)
    ensures AllMatched(bases.fadb, faKeys) <==> GenerateFrom(bases, [], faKeys) == Success([])
  {
    LookupsMatched(bases.fadb, faKeys);
  }

  /** Folding lists that are all empty gives the empty list. */
  lemma {:induction false} CollectEmptyLists(lists: CompoundLists, keys: seq<string>)
    requires forall k :: 0 <= k < |keys| ==> keys[k] in lists && lists[keys[k]] == []
    ensures Collect(lists, keys) == Success([])
    decreases |keys|
  {
    if keys != [] {
      var init := keys[..|keys| - 1];
      forall k | 0 <= k < |init| ensures init[k] == keys[k] {
      }
      CollectEmptyLists(lists, init);
    }
  }

  /** Selecting no fatty acyl gives an empty list for any known classes. */
  lemma GenerateNoFattyAcyls(bases: Bases, classKeys: seq<string>)
    requires forall k :: 0 <= k < |classKeys| ==> classKeys[k] in ClassTable
    ensures GenerateFrom(bases, classKeys, []) == Success([])
  {
    LookupsMatched(bases.fadb, []);
    var fa := Dereference(Lookups(bases.fadb, [])).value;
    assert fa == [];
    var bb := AllBlocks(bases, fa);
    forall k | 0 <= k < |classKeys| ensures AllClasses(bb)[classKeys[k]] == [] {
      NoFattyAcylNoCompounds(bb, classKeys[k]);
    }
    CollectEmptyLists(AllClasses(bb), classKeys);
  }
}
