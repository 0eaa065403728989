# Lipid species generator, modelled in Dafny

This project models the part of the lipid generator node that builds its
list of expected lipid species (`LipidGeneratorNode.cs`). The generator
works in four steps:

1. It expands three building-block tables into lists: NAN (one empty
   block with the formula `0`), FAdb (the fatty acyls `FA x:y` with 12 to 22
   carbons and at most x/2 - 5 double bonds) and SPH (the sphingoid base
   `d18:1`). Each table gives its indices as range specifications such as
   `12-22`, `y=function` or `18`.
2. It fills FA by looking up each selected fatty-acyl key in FAdb.
3. It builds 25 lipid classes. Each class combines up to four blocks from
   the lists. Where two neighbouring slots draw from the same list, each
   unordered combination is produced once.
4. For each selected class it adds the class's compounds to the output,
   skipping any compound whose sum-composition name is already listed.

Modules:

- `Wrappers` holds `Option` and `Result`.
- `Text` models the .NET string operations the code relies on:
  `String.Replace` (one left-to-right pass), `Split`, `Join`, `Contains`,
  `ToUpper` on ASCII letters, `String.Format` on brace-free templates,
  `Int32.ToString`
  and `int.Parse`.
- `ExtractInfo` models `findIndex`, `getDependendRange`,
  `addIndexToRange`, `getName`, `getMolComp` and `getElemCompFA`.
- `BuildingBlocks` models `BuildingBlock`, `BuildingBlockList` and the
  `Find` by name.
- `CompositeCompounds` models `CompositeCompound` and
  `CompositeCompoundList`.
- `LipidGenerator` models the tables, the class table and
  `GenerateLipids`.

The source builds its lists with loops. Each loop is modelled as a method
with loop invariants over a local `seq`. Its `ensures` equates the result
with a recursive specification function, and the properties are lemmas
about that function. The `List<T>` subclasses are never changed after they
are built, so the model needs no class. The one exception is FA, which
`GenerateLipids` fills itself.

Where the code and the written description of the generator disagree, the
model follows the code:

- `findIndex` appends numeric tokens without a duplicate check, so
  `"1,3,3,5"` gives `[1, 3, 3, 5]`.
- The class constructor compares collection keys, not list identity, when
  it decides whether two slots share a list.
- The selection key `"PG"` is bound to the LPG class (line 227).
- The class template `"HexCer dx:y"` also rewrites the `x` of `Hex`, so
  34 carbons and one double bond give `He34Cer d34:1`.

## Model

| member | source | states |
|---|---|---|
| `Text.ParseIntToDec` | LipidGeneratorNode.cs:513-517 | parsing a printed integer gives the integer back, so the numbers written into names and formulas can be read back unambiguously |
| `Text.DecCharsExclude` | LipidGeneratorNode.cs:514-519 | a printed integer holds no letter, blank, `*`, `+` or brace, so later replacement passes cannot match inside it |
| `Text.ReplaceChars` | LipidGeneratorNode.cs:514-519 | every character of a `String.Replace` result comes from the text or from the replacement |
| `Text.ReplaceCharGone` | LipidGeneratorNode.cs:519 | replacing a single character with text that lacks it leaves no occurrence of that character |
| `Text.ToUpperSpec` | LipidGeneratorNode.cs:520 | `ToUpper` keeps the length, leaves no lower-case letter and changes only lower-case letters |
| `Text.ToUpperIdentity` | LipidGeneratorNode.cs:520 | upper-casing text without lower-case letters changes nothing |
| `Text.Split` | LipidGeneratorNode.cs:446 | a split gives at least one piece, and at least two exactly when the separator occurs |
| `Text.JoinSplit` | LipidGeneratorNode.cs:446 | joining the pieces of a split with the separator restores the text |
| `Text.SplitJoin` | LipidGeneratorNode.cs:446 | splitting a join of separator-free pieces gives the pieces back |
| `Text.FormatPlain` | LipidGeneratorNode.cs:553 | `String.Format` returns brace-free text unchanged |
| `ExtractInfo.AddRangeSpec` | LipidGeneratorNode.cs:538-546 | `addIndexToRange` keeps the list as a prefix and adds exactly the missing values of min..max, in ascending order. A list without duplicates stays without duplicates |
| `ExtractInfo.AddRangeEmpty` | LipidGeneratorNode.cs:540 | when min > max the list is unchanged |
| `ExtractInfo.AddRangeFresh` | LipidGeneratorNode.cs:540-544 | a list holding no value of min..max is followed by the whole interval |
| `ExtractInfo.AddIndexToRange` | LipidGeneratorNode.cs:538-546 | the loop computes `AddRange` |
| `ExtractInfo.FindIndex` | LipidGeneratorNode.cs:437-500 | the loop over comma-separated tokens computes `Resolve` |
| `ExtractInfo.TokenStepSpec` | LipidGeneratorNode.cs:448-490 | one token keeps the list so far as a prefix and adds exactly its own values. Only a numeric token can add a duplicate |
| `ExtractInfo.EqualsNotNumeric` | LipidGeneratorNode.cs:522-536 | text containing `=` never parses as a number, so a `=` token always falls to the formula |
| `ExtractInfo.DependentTokenValues` | LipidGeneratorNode.cs:460-477 | a `=` token without `;` stands for 0..a/2-5 (C# truncating division). With `;`, it stands for the range between the values of its two sides |
| `ExtractInfo.ResolvePrefix` | LipidGeneratorNode.cs:448-491 | the result for a prefix of the tokens is a prefix of the result, so values keep the order of the tokens that first produce them |
| `ExtractInfo.ResolveMembers` | LipidGeneratorNode.cs:448-491 | an integer is in the result exactly when some token stands for it |
| `ExtractInfo.ResolveNoDup` | LipidGeneratorNode.cs:467-487 | without numeric tokens the result has no duplicates |
| `ExtractInfo.ResolveNumerals` | LipidGeneratorNode.cs:453-457 | a list of printed integers resolves to exactly those integers, repetitions included |
| `ExtractInfo.ResolveLiteralSpec` | LipidGeneratorNode.cs:443-497 | the empty specification gives `[0]`. A comma list of integers gives those integers in order, duplicates kept |
| `ExtractInfo.ResolveDuplicateLiteral` | LipidGeneratorNode.cs:453-457 | `"1,3,3,5"` resolves to `[1, 3, 3, 5]` |
| `ExtractInfo.RangeTokenContribution` | LipidGeneratorNode.cs:482-488 | a `lo-hi` token of digit strings stands for every integer of lo..hi |
| `ExtractInfo.NumeralSpecResolve` | LipidGeneratorNode.cs:453-457 | a specification made of one unsigned numeral resolves to its value |
| `ExtractInfo.RangeSpecResolve` | LipidGeneratorNode.cs:482-488 | a `lo-hi` specification resolves to the ascending interval lo..hi |
| `ExtractInfo.IgnoredTokensResolve` | LipidGeneratorNode.cs:480-489 | a token that is not numeric and holds neither `=` nor `-` is skipped, so a specification of such tokens resolves to nothing |
| `ExtractInfo.FattyAcylUnsaturation` | LipidGeneratorNode.cs:472-475 | `y=function` at a chain length of 12 to 22 resolves to 0..x/2-5. The range is never empty |
| `ExtractInfo.GetNameSubst` | LipidGeneratorNode.cs:548-555 | `getName` writes the decimal of x, y and z in place of every `x`, `y` and `z` of the template, in one simultaneous substitution |
| `ExtractInfo.SubstXYZPlain` | LipidGeneratorNode.cs:548-555 | a template without `x`, `y` and `z` is returned unchanged |
| `ExtractInfo.HexCerName` | LipidGeneratorNode.cs:203 | the HexCer template gives "He" x "Cer d" x ":" y: the `x` of `Hex` is rewritten too |
| `ExtractInfo.GetMolCompSubst` | LipidGeneratorNode.cs:557-565 | `getMolComp` equals one left-to-right substitution of `r1`..`r4` by the radical names: the four replacements cannot interfere |
| `ExtractInfo.ElemCompFAClean` | LipidGeneratorNode.cs:510-521 | a rendered formula holds no `*` and no lower-case letter |
| `ExtractInfo.ElemCompFAIdentity` | LipidGeneratorNode.cs:510-521 | rendering a formula already in normal form returns it unchanged, so rendering twice is harmless |
| `ExtractInfo.SeparatorCanSurvive` | LipidGeneratorNode.cs:518 | the one-pass removal of `" + "` can leave a `" + "` behind, for any indices |
| `ExtractInfo.FattyAcylFormula` | LipidGeneratorNode.cs:150 | the fatty-acyl template renders as C x H 2(x-y) O2 |
| `ExtractInfo.Palmitate` | LipidGeneratorNode.cs:150 | the fatty-acyl template with x = 16 and y = 0 renders as `C16H32O2` |
| `ExtractInfo.ElemCompFAConstant` | LipidGeneratorNode.cs:510-521 | a template without `(`, `x`, `y` and `z` renders the same for all indices |
| `ExtractInfo.SphingoidFormula` | LipidGeneratorNode.cs:151 | the sphingoid template renders as `C18H35O1N` for any indices |
| `BuildingBlocks.MakeBlock` | LipidGeneratorNode.cs:285-294 | a block keeps its type and indices, and its name is the template with the indices written in. Its formula holds no `*` and no lower-case letter |
| `BuildingBlocks.BuildBlockList` | LipidGeneratorNode.cs:322-339 | the three nested loops compute `Blocks` |
| `BuildingBlocks.BuildYBlocks` | LipidGeneratorNode.cs:328-337 | the middle loop computes `YBlocks` |
| `BuildingBlocks.BuildZBlocks` | LipidGeneratorNode.cs:331-335 | the inner loop computes `ZBlocks` |
| `BuildingBlocks.ZBlocksMembers` | LipidGeneratorNode.cs:331-335 | the inner loop adds one block per z, and exactly the blocks of its z values |
| `BuildingBlocks.BlocksMembers` | LipidGeneratorNode.cs:322-339 | a list holds exactly the blocks of the index triples its specifications denote, with y resolved against x, and z against x and y |
| `BuildingBlocks.ZBlocksAt` | LipidGeneratorNode.cs:331-335 | the inner loop adds its blocks in the order of the z values: entry k is the block of the k-th z |
| `BuildingBlocks.BlocksAscending` | LipidGeneratorNode.cs:322-339 | the nested loops add blocks x-major, then by y, then by z: when every range a list's specifications give is ascending, its blocks are in strictly ascending (x, y, z) order and no block appears twice |
| `BuildingBlocks.FindByName` | LipidGeneratorNode.cs:158 | a found block is in the list and its name contains the key. Nothing is found exactly when no name contains the key |
| `BuildingBlocks.FindByNameFirst` | LipidGeneratorNode.cs:158 | `Find` returns the first match: no earlier block matches |
| `CompositeCompounds.AdmissibleInBounds` | LipidGeneratorNode.cs:381-414 | the loop limits never index past the end of a list |
| `CompositeCompounds.PicksMembers` | LipidGeneratorNode.cs:382-412 | the four loops visit an index quadruple exactly when each inner index is below its limit |
| `CompositeCompounds.PicksIncreasing` | LipidGeneratorNode.cs:382-412 | the loops visit quadruples in strictly increasing lexicographic order, none twice |
| `CompositeCompounds.ProductCount` | LipidGeneratorNode.cs:386-410 | with no neighbouring slots sharing a key, the loops visit the full product of the list sizes |
| `CompositeCompounds.PairCount` | LipidGeneratorNode.cs:386-392 | two slots on one list of n blocks give n(n+1)/2 visits, one per unordered pair |
| `CompositeCompounds.CombineFormulaParts` | LipidGeneratorNode.cs:414-416 | with `+`-free parts, the combined formula is the parts concatenated, and each part after the first loses a leading `0` |
| `CompositeCompounds.MakeCompoundSpec` | LipidGeneratorNode.cs:355-370 | a compound's sum name is the template with the summed indices written in. Its molecular name is the radical substitution with every delete token removed. Its formula is normalised, and a normal-form formula is kept as it is |
| `CompositeCompounds.CompoundAtSpec` | LipidGeneratorNode.cs:414-422 | the compound of a quadruple carries the class type, the name over the summed indices of its four blocks and the molecular name over their names. When all parts are normalised, its formula is the block formulas and the modifier concatenated, with zeros dropped |
| `CompositeCompounds.CompoundsMembers` | LipidGeneratorNode.cs:375-428 | a class list holds one compound per visited quadruple, and exactly the compounds of the admissible quadruples |
| `CompositeCompounds.CompoundsKind` | LipidGeneratorNode.cs:422 | every compound of a class carries the class's type |
| `CompositeCompounds.BuildCompoundList` | LipidGeneratorNode.cs:375-428 | the four nested loops compute `Compounds` |
| `CompositeCompounds.BuildJCompounds` | LipidGeneratorNode.cs:385-426 | the second loop computes its rows of `Compounds` |
| `CompositeCompounds.BuildGCompounds` | LipidGeneratorNode.cs:394-425 | the third loop computes its rows of `Compounds` |
| `CompositeCompounds.BuildFCompounds` | LipidGeneratorNode.cs:404-424 | the innermost loop adds one compound per f |
| `CompositeCompounds.NewCompound` | LipidGeneratorNode.cs:414-422 | the loop body builds a compound of the class's type whose sum name fills the x, y and z of the sum template with the summed indices of the four blocks, whose molecular name fills r1 to r4 with the block names and deletes the class's token, and whose formula, for normalised parts, is the first block's formula followed by the others without zero counts |
| `CompositeCompounds.EmptySlotNoCompounds` | LipidGeneratorNode.cs:382-392 | an empty first list, or an empty second list under another key, gives no compound |
| `CompositeCompounds.PairCompounds` | LipidGeneratorNode.cs:386-392 | slots 1 and 2 on one list of n blocks, with slots 3 and 4 on one-block lists, give n(n+1)/2 compounds |
| `CompositeCompounds.ProductCompounds` | LipidGeneratorNode.cs:386-410 | without shared neighbouring keys (except over one-block lists) a class gives the product of its four list sizes |
| `CompositeCompounds.SingleCompound` | LipidGeneratorNode.cs:382-422 | four one-block lists give exactly one compound, made from the first block of each |
| `LipidGenerator.NanBlocks` | LipidGeneratorNode.cs:149 | NAN is the single block with an empty name, formula `0` and indices 0, 0, 0 |
| `LipidGenerator.EmptyBlocks` | LipidGeneratorNode.cs:153-154 | the empty table gives one block, which `RemoveAt(0)` takes away, so FA starts empty |
| `LipidGenerator.SphBlocks` | LipidGeneratorNode.cs:151 | SPH is the single block `d18:1` with formula `C18H35O1N` and indices 18, 1, 2 |
| `LipidGenerator.FattyAcylMembers` | LipidGeneratorNode.cs:150 | a fatty-acyl table holds exactly the blocks `FA x:y` for 12 <= x <= 22 and 0 <= y <= x/2-5, with formula C x H 2(x-y) O2 |
| `LipidGenerator.FadbListMembers` | LipidGeneratorNode.cs:150 | FAdb holds exactly the fatty acyls of 12 to 22 carbons with at most x/2-5 double bonds |
| `LipidGenerator.ClassTableOk` | LipidGeneratorNode.cs:175-237 | every class in the table can be built over the collections: its keys are present, its templates are brace-free and its delete token is not empty |
| `LipidGenerator.FattyAcylList` | LipidGeneratorNode.cs:156-159 | FA entry k is the first FAdb block whose name contains key k, or null |
| `LipidGenerator.Dereference` | LipidGeneratorNode.cs:175-207 | reading FA gives all the blocks, or the position of the first null. No entry before that position is null |
| `LipidGenerator.AddDistinctPrefix` | LipidGeneratorNode.cs:242-250 | the fold only appends |
| `LipidGenerator.AddDistinctNames` | LipidGeneratorNode.cs:242-250 | after the fold, a name is listed exactly when it was listed before or is the sum name of one of the compounds |
| `LipidGenerator.AddDistinctDistinct` | LipidGeneratorNode.cs:244 | the fold keeps names pairwise distinct |
| `LipidGenerator.AddDistinctMembers` | LipidGeneratorNode.cs:242-250 | the first compound of each name wins: the fold adds exactly the lipids of compounds that are first of their sum name and not yet listed |
| `LipidGenerator.AddLipids` | LipidGeneratorNode.cs:242-250 | the inner loop computes `AddDistinct` |
| `LipidGenerator.AllClasses` | LipidGeneratorNode.cs:175-237 | the class table binds exactly its 25 keys, each to the compound list of its class |
| `LipidGenerator.CollectStops` | LipidGeneratorNode.cs:239-241 | once a key is missing, the whole selection fails with that key |
| `LipidGenerator.CollectOutcome` | LipidGeneratorNode.cs:239-241 | the selection succeeds exactly when every key is in the table. Otherwise it fails on the first missing key |
| `LipidGenerator.CollectDistinct` | LipidGeneratorNode.cs:239-252 | output names are pairwise distinct |
| `LipidGenerator.CollectSound` | LipidGeneratorNode.cs:239-252 | every output lipid comes from a compound of a selected class |
| `LipidGenerator.CollectComplete` | LipidGeneratorNode.cs:239-252 | every compound of a selected class has its sum name on the output |
| `LipidGenerator.CollectPrefix` | LipidGeneratorNode.cs:239-252 | the output follows selection order: the output for the first k class keys is a prefix of the output for all of them |
| `LipidGenerator.PGIsLPG` | LipidGeneratorNode.cs:227-228 | selecting `PG` gives the same output as selecting `LPG`, all of class LPG |
| `LipidGenerator.ClassesUseFattyAcyls` | LipidGeneratorNode.cs:175-207 | every class draws its first slot from FA, or its first from SPH and its second from FA |
| `LipidGenerator.NoFattyAcylNoCompounds` | LipidGeneratorNode.cs:175-207 | with FA empty, every class gives no compound |
| `LipidGenerator.TwoChainCount` | LipidGeneratorNode.cs:175-206 | PC, PC O, PE, PE O, PS, PI, PA, PA O and DAG give n(n+1)/2 compounds for n fatty acyls |
| `LipidGenerator.OneChainCount` | LipidGeneratorNode.cs:177-228 | the lyso classes, PG (as LPG) and MAG give one compound per fatty acyl |
| `LipidGenerator.SphingolipidCount` | LipidGeneratorNode.cs:201-203 | Cer, SM and HexCer pair every sphingoid base with every fatty acyl |
| `LipidGenerator.SingleFattyAcylCount` | LipidGeneratorNode.cs:175-207 | with one fatty acyl every class gives exactly one compound, even the four-chain CL |
| `LipidGenerator.FourPalmitoyl` | LipidGeneratorNode.cs:199 | a class drawing its four chains from a one-block FA list holding FA 16:0 gives one compound, named `CL 64:0` under CL's sum template |
| `LipidGenerator.CardiolipinSingle` | LipidGeneratorNode.cs:199-229 | with FA 16:0 as the only fatty acyl, the CL entry of the class table holds one compound, named `CL 64:0` |
| `LipidGenerator.FadbAscending` | LipidGeneratorNode.cs:150 | the FAdb table's ranges ascend, so its blocks come in strictly ascending (x, y, z) order without repeats |
| `LipidGenerator.FadbListAscending` | LipidGeneratorNode.cs:150 | the FAdb list used by the generator is in strictly ascending (x, y, z) order, so `Find` scans the fatty acyls by carbon count, then by double bonds, and no entry repeats |
| `LipidGenerator.AllBlocks` | LipidGeneratorNode.cs:161-168 | the collection map holds the four keys, with the given FA list and the NAN and SPH lists |
| `LipidGenerator.GenerateLipids` | LipidGeneratorNode.cs:140-252 | the method computes `Generate` |
| `LipidGenerator.CollectLipids` | LipidGeneratorNode.cs:239-252 | the selection loop computes `Collect` over the class table built from the collection map: it fails on the first unknown class key and otherwise folds each selected class in order |
| `LipidGenerator.GenerateWith` | LipidGeneratorNode.cs:153-252 | filling FA and folding the selected classes computes `GenerateFrom` |
| `LipidGenerator.LookupsMatched` | LipidGeneratorNode.cs:156-159 | filling FA succeeds exactly when every key is matched. Entry k is then the first FAdb block whose name contains key k |
| `LipidGenerator.GenerateOutcome` | LipidGeneratorNode.cs:140-252 | generation succeeds exactly when every fatty-acyl key is matched and every class key is known. Otherwise it fails on the first unmatched fatty-acyl key, or else on the first unknown class key |
| `LipidGenerator.GenerateDistinct` | LipidGeneratorNode.cs:244 | the generated names are pairwise distinct |
| `LipidGenerator.GenerateNoClasses` | LipidGeneratorNode.cs:239-252 | selecting no class gives the empty list exactly when the fatty acyls match |
| `LipidGenerator.GenerateNoFattyAcyls` | LipidGeneratorNode.cs:156-252 | selecting no fatty acyl gives the empty list for any known classes |

## Left out

- Host plumbing is not modelled: the node's inputs and outputs, the
  selection dictionaries `LipidCLass` and `FattyAcyl`, logging,
  `Stopwatch` timing and `SendAndLogVerboseMessage`. The selected class
  keys and fatty-acyl keys are parameters, in selection order.
- `LipidCompound` is reduced to name, class and formula. Its mass and
  the `-1` argument belong to code outside this file.
- `Mass` and `BuildingBlock.operator +` are not modelled. The mass
  computation is commented out in the source, and the operator is never
  called.
- `ToString` overrides and the unused `getElemComp` are not modelled.
- `ExtractInfo.Resolve`: `double.TryParse` is modelled only for
  integers, an optional sign followed by decimal digits. A token such as
  `2.5` or `1e1` is treated as an ignored token, whereas the source appends
  its value truncated to `int` (2 and 10). Whitespace and culture settings
  are not modelled either. No table of the generator uses such tokens.
- `ExtractInfo.IgnoredTokensResolve`: states that non-numeric tokens are
  skipped, for the integer-only notion of a number above, so it also
  covers `2.5` and `1e1`, which the source does not skip.
- `ExtractInfo.FindIndex`: a `lo-hi` token whose ends are not integers
  makes `int.Parse` throw. The model excludes such specifications with a
  precondition (`SpecOk`) instead of modelling the exception. `SpecOk`
  also rejects ends padded with spaces, such as `12 - 22`, which `int.Parse`
  accepts. Every range of the generator is unpadded.
- `ExtractInfo.GetName`: the model requires brace-free templates, for
  which `String.Format` returns the text unchanged. Templates with braces
  (`{{` and `}}` escapes, format items, and malformed braces that make
  .NET throw) are not modelled. Every template of the generator is
  brace-free.
- `Text.ToUpper`: upper-casing is modelled for ASCII letters only, as under
  the invariant culture. Every template and name of the generator is ASCII.
- `CompositeCompounds.BuildCompoundList`: `String.Replace` with an empty
  delete token makes .NET throw. The model requires a non-empty token,
  which every class of the generator has.
- `CompositeCompounds.ClassOk`: requires all four slot keys to be in the
  collection map even when the first list is empty and the source would
  never look the others up. Every class of the generator names keys of
  the map.
- Integer overflow is not modelled. Indices and their sums stay below 100
  for the generator's tables, far from 32-bit limits.
- `LipidGenerator.GenerateWith` builds a class's compound list when that
  class is selected. The source builds all 25 lists first. Building a list
  has no effect besides its result, and the null check on FA that comes
  first keeps the source's order of failures, so the outputs agree. The
  source's cost of building unselected classes is not modelled.
- Exceptions are modelled as `Failure` values: `UnmatchedFattyAcyl` for
  the null that `Find` leaves in FA, and `UnknownClass` for a missing
  dictionary key. Exception types and messages are not modelled.
