/**
 * The four Huffman tables the encoder ships, and which symbols they give a code.
 *
 * The two DC tables and the luminance AC table cover everything baseline coding needs. The
 * chrominance AC list repeats 0xe1 and 0xf1, so that its last two symbols, 0xf9 and 0xfa, fall
 * behind the 162 codes and get none.
 */
module JpegTables {
  import opened Bits
  import opened JpegHuffman
  import opened JpegSymbolLists

  const DC_LUM_COUNTS: Counts := [0, 0, 1, 5, 1, 1, 1, 1, 1, 1, 0, 0, 0, 0, 0, 0, 0]
  const DC_CHR_COUNTS: Counts := [0, 0, 3, 1, 1, 1, 1, 1, 1, 1, 1, 1, 0, 0, 0, 0, 0]
  const AC_LUM_COUNTS: Counts := [0, 0, 2, 1, 3, 3, 2, 4, 3, 5, 5, 4, 4, 0, 0, 1, 125]
  const AC_CHR_COUNTS: Counts := [0, 0, 2, 1, 2, 4, 4, 3, 4, 7, 5, 4, 4, 0, 1, 2, 119]

  function DcLum(): Table {
    Table(DC_LUM_COUNTS, DcVals())
  }

  function DcChr(): Table {
    Table(DC_CHR_COUNTS, DcVals())
  }

  function AcLum(): Table {
    Table(AC_LUM_COUNTS, seq(162, k => AcLumByte(k)))
  }

  function AcChr(): Table {
    Table(AC_CHR_COUNTS, seq(164, k => AcChrByte(k)))
  }

  function AcLumByte(k: int): byte {
    AcLumVal(k)
  }

  function AcChrByte(k: int): byte {
    AcChrVal(k)
  }

  function DcVals(): seq<byte> {
    seq(12, k requires 0 <= k < 12 => k)
  }

  // ----- The four count arrays satisfy Kraft's inequality

  lemma SixteenPowers()
    ensures Pow2(0) == 1 && Pow2(1) == 2 && Pow2(2) == 4 && Pow2(3) == 8 && Pow2(4) == 16 && Pow2(5) == 32
    ensures Pow2(6) == 64 && Pow2(7) == 128 && Pow2(8) == 256 && Pow2(9) == 512 && Pow2(10) == 1024
    ensures Pow2(11) == 2048 && Pow2(12) == 4096 && Pow2(13) == 8192 && Pow2(14) == 16384
    ensures Pow2(15) == 32768 && Pow2(16) == 65536
  {}

  lemma DcLumIsValid()
    ensures Total(DcLum().counts) == 12 && ValidTable(DcLum())
  {
    SixteenPowers();
    assert KraftSum(DC_LUM_COUNTS, 2) == 16384 && KraftSum(DC_LUM_COUNTS, 4) == 61440;
    assert KraftSum(DC_LUM_COUNTS, 6) == 64512 && KraftSum(DC_LUM_COUNTS, 8) == 65280;
    assert KraftSum(DC_LUM_COUNTS, 10) == 65408 && KraftSum(DC_LUM_COUNTS, 12) == 65408;
    assert KraftSum(DC_LUM_COUNTS, 14) == 65408 && KraftSum(DC_LUM_COUNTS, 16) == 65408;
    assert FirstIndex(DC_LUM_COUNTS, 3) == 1 && FirstIndex(DC_LUM_COUNTS, 5) == 7;
    assert FirstIndex(DC_LUM_COUNTS, 7) == 9 && FirstIndex(DC_LUM_COUNTS, 9) == 11;
    assert FirstIndex(DC_LUM_COUNTS, 11) == 12 && FirstIndex(DC_LUM_COUNTS, 13) == 12;
    assert FirstIndex(DC_LUM_COUNTS, 15) == 12 && FirstIndex(DC_LUM_COUNTS, 17) == 12;
  }

  lemma DcChrIsValid()
    ensures Total(DcChr().counts) == 12 && ValidTable(DcChr())
  {
    SixteenPowers();
    assert KraftSum(DC_CHR_COUNTS, 2) == 49152 && KraftSum(DC_CHR_COUNTS, 4) == 61440;
    assert KraftSum(DC_CHR_COUNTS, 6) == 64512 && KraftSum(DC_CHR_COUNTS, 8) == 65280;
    assert KraftSum(DC_CHR_COUNTS, 10) == 65472 && KraftSum(DC_CHR_COUNTS, 12) == 65504;
    assert KraftSum(DC_CHR_COUNTS, 14) == 65504 && KraftSum(DC_CHR_COUNTS, 16) == 65504;
    assert FirstIndex(DC_CHR_COUNTS, 3) == 3 && FirstIndex(DC_CHR_COUNTS, 5) == 5;
    assert FirstIndex(DC_CHR_COUNTS, 7) == 7 && FirstIndex(DC_CHR_COUNTS, 9) == 9;
    assert FirstIndex(DC_CHR_COUNTS, 11) == 11 && FirstIndex(DC_CHR_COUNTS, 13) == 12;
    assert FirstIndex(DC_CHR_COUNTS, 15) == 12 && FirstIndex(DC_CHR_COUNTS, 17) == 12;
  }

  lemma AcLumIsValid()
    ensures Total(AcLum().counts) == 162 && ValidTable(AcLum())
  {
    SixteenPowers();
    assert KraftSum(AC_LUM_COUNTS, 2) == 32768 && KraftSum(AC_LUM_COUNTS, 4) == 53248;
    assert KraftSum(AC_LUM_COUNTS, 6) == 61440 && KraftSum(AC_LUM_COUNTS, 8) == 64256;
    assert KraftSum(AC_LUM_COUNTS, 10) == 65216 && KraftSum(AC_LUM_COUNTS, 12) == 65408;
    assert KraftSum(AC_LUM_COUNTS, 14) == 65408 && KraftSum(AC_LUM_COUNTS, 16) == 65535;
    assert FirstIndex(AC_LUM_COUNTS, 3) == 2 && FirstIndex(AC_LUM_COUNTS, 5) == 6;
    assert FirstIndex(AC_LUM_COUNTS, 7) == 11 && FirstIndex(AC_LUM_COUNTS, 9) == 18;
    assert FirstIndex(AC_LUM_COUNTS, 11) == 28 && FirstIndex(AC_LUM_COUNTS, 13) == 36;
    assert FirstIndex(AC_LUM_COUNTS, 15) == 36 && FirstIndex(AC_LUM_COUNTS, 17) == 162;
  }

  lemma AcChrIsValid()
    ensures Total(AcChr().counts) == 162 && ValidTable(AcChr())
  {
    SixteenPowers();
    assert KraftSum(AC_CHR_COUNTS, 2) == 32768 && KraftSum(AC_CHR_COUNTS, 4) == 49152;
    assert KraftSum(AC_CHR_COUNTS, 6) == 61440 && KraftSum(AC_CHR_COUNTS, 8) == 64000;
    assert KraftSum(AC_CHR_COUNTS, 10) == 65216 && KraftSum(AC_CHR_COUNTS, 12) == 65408;
    assert KraftSum(AC_CHR_COUNTS, 14) == 65412 && KraftSum(AC_CHR_COUNTS, 16) == 65535;
    assert FirstIndex(AC_CHR_COUNTS, 3) == 2 && FirstIndex(AC_CHR_COUNTS, 5) == 5;
    assert FirstIndex(AC_CHR_COUNTS, 7) == 13 && FirstIndex(AC_CHR_COUNTS, 9) == 20;
    assert FirstIndex(AC_CHR_COUNTS, 11) == 32 && FirstIndex(AC_CHR_COUNTS, 13) == 40;
    assert FirstIndex(AC_CHR_COUNTS, 15) == 41 && FirstIndex(AC_CHR_COUNTS, 17) == 162;
  }

  // ----- Which symbols have a code

  lemma LumCovers(sym: byte)
    requires (sym == 0x00 || sym == 0xf0 || 1 <= sym % 16 <= 10)
    ensures ValidTable(AcLum()) && sym in Symbols(AcLum())
  {
    AcLumIsValid();
    LumLocated(sym);
    assert AcLum().vals[AcLumPos(sym)] == sym;
  }

  lemma ChrCovers(sym: byte)
    requires (sym == 0x00 || sym == 0xf0 || 1 <= sym % 16 <= 10) && sym != 0xf9 && sym != 0xfa
    ensures ValidTable(AcChr()) && sym in Symbols(AcChr())
  {
    AcChrIsValid();
    ChrLocated(sym);
    assert AcChr().vals[AcChrPos(sym)] == sym;
  }

  /** The two symbols the chrominance list pushes out have no code. */
  lemma ChrLacksTwo()
    ensures ValidTable(AcChr()) && 0xf9 !in Symbols(AcChr()) && 0xfa !in Symbols(AcChr())
  {
    AcChrIsValid();
    forall k | 0 <= k < 162
      ensures AcChr().vals[k] != 0xf9 && AcChr().vals[k] != 0xfa
    {
      ChrMisses(k);
    }
  }

  lemma DcCovers(sym: byte)
    requires sym <= 11
    ensures ValidTable(DcLum()) && sym in Symbols(DcLum())
    ensures ValidTable(DcChr()) && sym in Symbols(DcChr())
  {
    DcLumIsValid();
    DcChrIsValid();
    assert DcVals()[sym] == sym;
  }
}
