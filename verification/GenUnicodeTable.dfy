/** The generated lookup functions of misctools/gen-unicode-table.ts: a predicate on code points
    becomes two tables, the second packed into 64-bit words. */
module GenUnicodeTable {
  import opened Bits
  import opened UnicodeTables

  // ---------- packing bits ----------

  /** Bit k is bit k & 63 of word k >> 6, and every word has 64 bits. */
  ghost predicate Packed(words: seq<nat>, bits: seq<nat>, n: nat)
    requires n <= |bits|
  {
    && (forall k: nat :: k < n ==> k / 64 < |words| && (HasBit(words[k / 64], k % 64) <==> bits[k] != 0))
    && (forall w :: w in words ==> w < Bit(64))
  }

  /** The first `n` bits of one word, from bit `i` on. */
  ghost predicate WordHolds(value: nat, bits: seq<nat>, i: nat, n: nat) {
    && value < Bit(n)
    && forall j: nat :: HasBit(value, j) <==> j < n && i + j < |bits| && bits[i + j] != 0
  }

  lemma ExtendWord(value: nat, bits: seq<nat>, i: nat, j: nat)
    requires WordHolds(value, bits, i, j) && i + j < |bits|
    ensures WordHolds(if bits[i + j] != 0 then Or(value, Bit(j)) else value, bits, i, j + 1)
  {
    if bits[i + j] != 0 {
      BitGrows(j, j + 1);
      OrFits(value, Bit(j), j + 1);
      forall k: nat
        ensures HasBit(Or(value, Bit(j)), k) <==> k < j + 1 && i + k < |bits| && bits[i + k] != 0
      {
        SetBit(value, k, j);
        assert HasBit(value, k) <==> k < j && i + k < |bits| && bits[i + k] != 0;
      }
    }
  }

  lemma NoBits(bits: seq<nat>, i: nat)
    ensures WordHolds(0, bits, i, 0)
  {
    forall j: nat ensures !HasBit(0, j) { ZeroHasNoBit(j); }
  }

  /** A word that took all the bits there were. */
  lemma WordIsFull(value: nat, bits: seq<nat>, i: nat, j: nat, n: nat)
    requires WordHolds(value, bits, i, j) && j <= n && (j == n || i + j >= |bits|)
    ensures WordHolds(value, bits, i, n)
  {
    BitGrows(j, n);
  }

  method PackWord(bits: seq<nat>, i: nat) returns (value: nat)
    ensures WordHolds(value, bits, i, 64)
  {
    value := 0;
    var j := 0;
    NoBits(bits, i);
    while j < 64 && i + j < |bits|
      invariant 0 <= j <= 64
      invariant WordHolds(value, bits, i, j)
    {
      ExtendWord(value, bits, i, j);
      if bits[i + j] != 0 {
        value := Or(value, Bit(j));
      }
      j := j + 1;
    }
    WordIsFull(value, bits, i, j, 64);
  }

  method BitsToU64Array(bits: seq<nat>) returns (words: seq<nat>)
    ensures |words| == (|bits| + 63) / 64
    ensures Packed(words, bits, |bits|)
  {
    words := [];
    var i := 0;
    while i < |bits|
      invariant i == 64 * |words| && |words| <= (|bits| + 63) / 64
      invariant Packed(words, bits, if i < |bits| then i else |bits|)
    {
      var value := PackWord(bits, i);
      AddWord(words, bits, i, value);
      words := words + [value];
      i := i + 64;
    }
  }

  lemma AddWord(words: seq<nat>, bits: seq<nat>, i: nat, value: nat)
    requires i == 64 * |words| && i < |bits| && Packed(words, bits, i) && WordHolds(value, bits, i, 64)
    ensures Packed(words + [value], bits, if i + 64 < |bits| then i + 64 else |bits|)
  {
    var n, words' := if i + 64 < |bits| then i + 64 else |bits|, words + [value];
    forall k: nat | k < n
      ensures k / 64 < |words'| && (HasBit(words'[k / 64], k % 64) <==> bits[k] != 0)
    {
      if k >= i {
        assert k / 64 == |words| && i + k % 64 == k;
      }
    }
  }

  // ---------- the generated function ----------

  /** A table as it is written out. */
  datatype Table = Table(stage1: seq<nat>, stage2: seq<nat>)

  /** Every array access of the generated function is in bounds. */
  ghost predicate InBounds(t: Table, cp: nat) {
    cp <= MAX_CODE_POINT ==> cp / 256 < |t.stage1| && (t.stage1[cp / 256] + cp % 256) / 64 < |t.stage2|
  }

  /** The generated function. */
  function Lookup(t: Table, cp: nat): bool
    requires InBounds(t, cp)
  {
    if cp > MAX_CODE_POINT then false
    else
      var high, low := cp / 256, cp % 256;
      var bitPos := t.stage1[high] + low;
      And(t.stage2[bitPos / 64], Bit(bitPos % 64)) != 0
  }

  function CheckContext(check: nat -> bool): Context<bool> {
    Context(check, (a, b) => a == b)
  }

  lemma FindBool(check: nat -> bool, v: bool, e: seq<bool>, x: bool)
    requires e == [] || e == [v] || e == [v, !v]
    ensures FindIndex(CheckContext(check), e, x) ==
            if e == [] || x == v then 0 else 1
  {
    if |e| == 1 {
      assert e[1..] == [];
    } else if |e| == 2 {
      assert e[1..] == [!v];
    }
  }

  /** Stage 3 begins with the value of code point 0, so that value gets index 0 and the other 1. */
  lemma {:induction false} ElementsOfCheck(check: nat -> bool, n: nat)
    ensures var e := Elements(CheckContext(check), n);
            if n == 0 then e == [] else e == [check(0)] || e == [check(0), !check(0)]
  {
    if n > 0 {
      ElementsOfCheck(check, n - 1);
      FindBool(check, check(0), Elements(CheckContext(check), n - 1), check(n - 1));
    }
  }

  lemma IndexOfCheck(check: nat -> bool, cp: nat)
    ensures IndexOf(CheckContext(check), cp) == if check(cp) == check(0) then 0 else 1
  {
    ElementsOfCheck(check, cp);
    FindBool(check, check(0), Elements(CheckContext(check), cp), check(cp));
  }

  /** The number of different blocks of 256 code points. */
  ghost function DistinctBlocks(check: nat -> bool): nat {
    |Blocks(CheckContext(check), MAX_CODE_POINT, BlockCount(MAX_CODE_POINT))|
  }

  /** The emitted lookup reads inside its tables for every number, and is true exactly of the code points whose
      value differs from that of 0. */
  ghost predicate TellsFromZero(check: nat -> bool, t: Table) {
    forall cp: nat :: InBounds(t, cp) && (Lookup(t, cp) <==> cp <= 0x10ffff && check(cp) != check(0))
  }

  /** `generateTable`: fails exactly when there are more than 256 different blocks. */
  method GenerateTable(check: nat -> bool) returns (r: Result<Table>)
    ensures r.Success? <==> DistinctBlocks(check) <= 0x100
    ensures r.Success? ==> TellsFromZero(check, r.value)
  {
    var ctx := CheckContext(check);
    var generator := new Generator(ctx);
    var tables := generator.Generate(MAX_CODE_POINT);
    ElementsOfCheck(check, MAX_CODE_POINT + 1);
    if tables.Failure? {
      return Failure(tables.error);
    }
    var words := BitsToU64Array(tables.value.stage2);
    var t := Table(tables.value.stage1, words);
    forall cp: nat
      ensures InBounds(t, cp) && (Lookup(t, cp) <==> cp <= MAX_CODE_POINT && check(cp) != check(0))
    {
      if cp <= MAX_CODE_POINT {
        LookupReadsIndex(check, tables.value, words, cp);
      }
    }
    r := Success(t);
  }

  lemma LookupReadsIndex(check: nat -> bool, tables: Tables<bool>, words: seq<nat>, cp: nat)
    requires Correct(CheckContext(check), MAX_CODE_POINT, tables) && Packed(words, tables.stage2, |tables.stage2|)
    requires cp <= MAX_CODE_POINT
    ensures var t := Table(tables.stage1, words);
            InBounds(t, cp) && (Lookup(t, cp) <==> check(cp) != check(0))
  {
    assert RecordedAt(CheckContext(check), tables.stage1, tables.stage2, cp);
    IndexOfCheck(check, cp);
    var k := Position(tables.stage1, cp);
    assert HasBit(words[k / 64], k % 64) <==> tables.stage2[k] != 0;
    AndBit(words[k / 64], k % 64);
  }

  /** The generated function is the predicate it was generated from exactly when that predicate is
      false of code point 0; otherwise it is the opposite on every code point. */
  lemma LookupIsCheckIffZeroIsNot(check: nat -> bool, t: Table)
    requires TellsFromZero(check, t)
    ensures (forall cp: nat :: cp <= 0x10ffff ==> Lookup(t, cp) == check(cp)) <==> !check(0)
    ensures check(0) ==> forall cp: nat :: cp <= 0x10ffff ==> Lookup(t, cp) != check(cp)
    ensures forall cp: nat :: cp > 0x10ffff ==> !Lookup(t, cp)
  {
    assert InBounds(t, 0) && !Lookup(t, 0);
  }
}
