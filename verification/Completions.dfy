/** The list of package names for completions: misctools/generate-add-completions.ts writes it as one
    buffer with an index by first letter, and the Rust it emits reads the buffer back. */
module Completions {
  import opened Lists

  /** A UTF-16 code unit. */
  type Unit = x: int | 0 <= x < 0x1_0000
  type Byte = x: int | 0 <= x < 256
  type Name = seq<Unit>

  predicate IsAscii(name: Name) {
    forall i :: 0 <= i < |name| ==> name[i] < 128
  }

  /** How many code units the first character has. */
  function FirstUnits(name: Name): nat
    requires name != []
  {
    if 0xD800 <= name[0] < 0xDC00 && |name| > 1 && 0xDC00 <= name[1] < 0xE000 then 2 else 1
  }

  /** The first character. A lone surrogate becomes U+FFFD. */
  function First(name: Name): (c: nat)
    requires name != []
    ensures c < 0x11_0000
  {
    var u: int := name[0];
    if FirstUnits(name) == 2 then
      var v: int := name[1];
      0x1_0000 + (u - 0xD800) * 1024 + (v - 0xDC00)
    else if 0xD800 <= u < 0xE000 then 0xFFFD
    else u
  }

  function Utf8One(c: nat): seq<Byte>
    requires c < 0x11_0000
  {
    if c < 0x80 then [c]
    else if c < 0x800 then [0xC0 + c / 64, 0x80 + c % 64]
    else if c < 0x1_0000 then [0xE0 + c / 4096, 0x80 + c / 64 % 64, 0x80 + c % 64]
    else [0xF0 + c / 0x4_0000, 0x80 + c / 4096 % 64, 0x80 + c / 64 % 64, 0x80 + c % 64]
  }

  /** `Buffer.from(name, "utf8")`. */
  function Utf8(name: Name): seq<Byte> {
    if name == [] then [] else Utf8One(First(name)) + Utf8(name[FirstUnits(name)..])
  }

  lemma FirstLength(name: Name)
    requires name != []
    ensures |Utf8One(First(name))| >= FirstUnits(name)
    ensures name[0] >= 128 ==> |Utf8One(First(name))| > FirstUnits(name)
    ensures name[0] < 128 ==> FirstUnits(name) == 1 && Utf8One(First(name)) == [name[0]]
  {}

  lemma AsciiStep(name: Name, k: nat)
    requires k <= |name|
    ensures IsAscii(name) <==> IsAscii(name[..k]) && IsAscii(name[k..])
  {
    assert name == name[..k] + name[k..];
  }

  lemma AsciiFirst(name: Name)
    requires name != []
    ensures IsAscii(name) <==> name[0] < 128 && IsAscii(name[FirstUnits(name)..])
  {
    AsciiStep(name, FirstUnits(name));
    var first := name[..FirstUnits(name)];
    assert first[0] == name[0];
  }

  /** Only the ASCII names have as many bytes as code units. */
  lemma {:induction false} Utf8Length(name: Name)
    ensures |Utf8(name)| >= |name|
    ensures |Utf8(name)| == |name| <==> IsAscii(name)
    ensures IsAscii(name) ==> Utf8(name) == name
    decreases |name|
  {
    if name != [] {
      FirstLength(name);
      AsciiFirst(name);
      Utf8Length(name[FirstUnits(name)..]);
      if name[0] < 128 {
        assert name == [name[0]] + name[1..];
      }
    }
  }

  // ---------- the buffer ----------

  function U16(n: nat): seq<Byte>
    requires n < 0x1_0000
  {
    [n % 256, n / 256]
  }

  function U32(n: nat): seq<Byte>
    requires n < 0x1_0000_0000
  {
    U16(n % 0x1_0000) + U16(n / 0x1_0000)
  }

  function Le16(low: int, high: int): int {
    low + 256 * high
  }

  function Le32(b0: int, b1: int, b2: int, b3: int): int {
    Le16(b0, b1) + 0x1_0000 * Le16(b2, b3)
  }

  predicate Short(names: seq<Name>) {
    forall n :: n in names ==> |n| < 0x1_0000
  }

  predicate Fits(names: seq<Name>) {
    |names| < 0x1_0000_0000 && Short(names)
  }

  function Chunk(name: Name): seq<Byte>
    requires |name| < 0x1_0000
  {
    U16(|name|) + Utf8(name)
  }

  function Chunks(names: seq<Name>): seq<Byte>
    requires Short(names)
  {
    if names == [] then [] else Chunk(names[0]) + Chunks(names[1..])
  }

  /** What is written; None stands for the RangeError of `writeUInt16LE` and `writeUInt32LE`. */
  function Written(names: seq<Name>): Option<seq<Byte>> {
    if Fits(names) then Some(U32(|names|) + Chunks(names)) else None
  }

  lemma {:induction false} ChunksAppend(names: seq<Name>, name: Name)
    requires Short(names + [name])
    ensures forall n :: n in names ==> n in names + [name]
    ensures |name| < 0x1_0000
    ensures Chunks(names + [name]) == Chunks(names) + Chunk(name)
  {
    assert name in names + [name];
    assert forall n :: n in names ==> n in names + [name];
    if names == [] {
      assert names + [name] == [name];
      assert Chunks([name]) == Chunk(name) + [];
    } else {
      assert (names + [name])[1..] == names[1..] + [name];
      ChunksAppend(names[1..], name);
      Regroup(Chunk(names[0]), Chunks(names[1..]), Chunk(name));
    }
  }

  lemma ChunksNext(names: seq<Name>, i: nat)
    requires i < |names| && Short(names[..i]) && |names[i]| < 0x1_0000
    ensures Short(names[..i + 1])
    ensures Chunks(names[..i + 1]) == Chunks(names[..i]) + Chunk(names[i])
    ensures SizeOf(names[..i + 1]) == SizeOf(names[..i]) + 2 + |names[i]|
  {
    assert names[..i + 1] == names[..i] + [names[i]];
    assert names[..i + 1][..i] == names[..i];
    ChunksAppend(names[..i], names[i]);
  }

  /** All numbers of the buffer are little-endian: four bytes for the count, two for the length of a name, whose
      bytes follow. */
  lemma BufferIs(names: seq<Name>)
    requires Fits(names)
    ensures Written(names).Some?
    ensures var (data, n) := (Written(names).value, |names|);
            && |data| >= 4 && data[..4] == [n % 256, n / 256 % 256, n / 65536 % 256, n / 16777216]
            && (names != [] ==>
                  var first := names[0];
                  |data| >= 6 + |Utf8(first)| && data[4] == |first| % 256 && data[5] == |first| / 256
                  && data[6..6 + |Utf8(first)|] == Utf8(first))
  {
    CountBytes(|names|);
    if names == [] {
      assert U32(|names|) + [] == U32(|names|);
    } else {
      assert names[0] in names;
      PartsOfBuffer(U32(|names|), U16(|names[0]|), Utf8(names[0]), Chunks(names[1..]));
    }
  }

  lemma PartsOfBuffer(count: seq<Byte>, length: seq<Byte>, bytes: seq<Byte>, rest: seq<Byte>)
    requires |count| == 4 && |length| == 2
    ensures var data := count + ((length + bytes) + rest);
            && |data| >= 6 + |bytes| && data[..4] == count && data[4] == length[0] && data[5] == length[1]
            && data[6..6 + |bytes|] == bytes
  {}

  lemma CountBytes(n: nat)
    requires n < 0x1_0000_0000
    ensures U32(n) == [n % 256, n / 256 % 256, n / 65536 % 256, n / 16777216]
  {
    assert n % 65536 % 256 == n % 256 && n % 65536 / 256 == n / 256 % 256;
    assert n / 65536 / 256 == n / 16777216;
  }

  method WriteChunks(names: seq<Name>) returns (chunks: Option<seq<Byte>>, size: nat)
    ensures chunks.Some? <==> Short(names)
    ensures chunks.Some? ==> chunks.value == Chunks(names) && size == SizeOf(names)
  {
    var data: seq<Byte> := [];
    size := 0;
    for i := 0 to |names|
      invariant Short(names[..i])
      invariant data == Chunks(names[..i]) && size == SizeOf(names[..i])
    {
      if |names[i]| >= 0x1_0000 {
        return None, 0;
      }
      ChunksNext(names, i);
      data := data + Chunk(names[i]);
      size := size + 2 + |names[i]|;
    }
    assert names[..|names|] == names;
    chunks := Some(data);
  }

  method Write(names: seq<Name>) returns (data: Option<seq<Byte>>, uncompressedSize: nat)
    ensures data == Written(names)
    ensures data.Some? ==> uncompressedSize == 4 + SizeOf(names)
  {
    if |names| >= 0x1_0000_0000 {
      return None, 0;
    }
    var chunks, size := WriteChunks(names);
    data := if chunks.Some? then Some(U32(|names|) + chunks.value) else None;
    uncompressedSize := 4 + size;
  }

  /** The bytes that the writer counts. */
  function SizeOf(names: seq<Name>): nat {
    if names == [] then 0 else SizeOf(names[..|names| - 1]) + 2 + |names[|names| - 1]|
  }

  // ---------- the emitted reader ----------

  function Prepend(read: seq<seq<Byte>>, rest: Option<seq<seq<Byte>>>): Option<seq<seq<Byte>>> {
    if rest.Some? then Some(read + rest.value) else None
  }

  /** `total` names from `data` on; None stands for an index out of bounds, which panics. */
  function Read(data: seq<Byte>, total: nat): Option<seq<seq<Byte>>> {
    if total == 0 then Some([])
    else if |data| < 2 then None
    else
      var len := Le16(data[0], data[1]);
      if |data| < 2 + len then None
      else Prepend([data[2..2 + len]], Read(data[2 + len..], total - 1))
  }

  function Table(data: seq<Byte>): Option<seq<seq<Byte>>> {
    if |data| < 4 then None
    else Read(data[4..], Le32(data[0], data[1], data[2], data[3]))
  }

  lemma PrependTwice(a: seq<seq<Byte>>, b: seq<seq<Byte>>, rest: Option<seq<seq<Byte>>>)
    ensures Prepend(a, Prepend(b, rest)) == Prepend(a + b, rest)
  {
    if rest.Some? {
      assert a + (b + rest.value) == (a + b) + rest.value;
    }
  }

  lemma ReadOne(data: seq<Byte>, pos: nat, total: nat)
    requires total > 0 && pos <= |data|
    ensures Read(data[pos..], total) ==
            if pos + 1 >= |data| then None
            else if pos + 2 + Le16(data[pos], data[pos + 1]) > |data| then None
            else
              var next := pos + 2 + Le16(data[pos], data[pos + 1]);
              Prepend([data[pos + 2..next]], Read(data[next..], total - 1))
  {
    if pos + 1 < |data| {
      var next := pos + 2 + Le16(data[pos], data[pos + 1]);
      if next <= |data| {
        assert data[pos..][2..next - pos] == data[pos + 2..next];
        assert data[pos..][next - pos..] == data[next..];
      }
    }
  }

  /** `packages` were read before `pos`, and `total` more make up the table. */
  ghost predicate HasRead(data: seq<Byte>, packages: seq<seq<Byte>>, pos: nat, total: nat, table: Option<seq<seq<Byte>>>) {
    pos <= |data| && Prepend(packages, Read(data[pos..], total)) == table
  }

  lemma ReadNext(data: seq<Byte>, packages: seq<seq<Byte>>, pos: nat, total: nat, table: Option<seq<seq<Byte>>>)
    requires total > 0 && HasRead(data, packages, pos, total, table)
    ensures if pos + 1 >= |data| then table == None
            else if pos + 2 + Le16(data[pos], data[pos + 1]) > |data| then table == None
            else
              var next := pos + 2 + Le16(data[pos], data[pos + 1]);
              HasRead(data, packages + [data[pos + 2..next]], next, total - 1, table)
  {
    ReadOne(data, pos, total);
    if pos + 1 < |data| && pos + 2 + Le16(data[pos], data[pos + 1]) <= |data| {
      var next := pos + 2 + Le16(data[pos], data[pos + 1]);
      PrependTwice(packages, [data[pos + 2..next]], Read(data[next..], total - 1));
    }
  }

  lemma ReadBegins(data: seq<Byte>)
    requires |data| >= 4
    ensures HasRead(data, [], 4, Le32(data[0], data[1], data[2], data[3]), Table(data))
  {
    var rest := Read(data[4..], Le32(data[0], data[1], data[2], data[3]));
    if rest.Some? {
      assert [] + rest.value == rest.value;
    }
  }

  lemma ReadEnds(data: seq<Byte>, packages: seq<seq<Byte>>, pos: nat, table: Option<seq<seq<Byte>>>)
    requires HasRead(data, packages, pos, 0, table)
    ensures table == Some(packages)
  {
    assert packages + [] == packages;
  }

  method BuildTable(data: seq<Byte>) returns (table: Option<seq<seq<Byte>>>)
    ensures table == Table(data)
  {
    if |data| < 4 {
      return None;
    }
    ghost var whole := Table(data);
    ReadBegins(data);
    var total := Le32(data[0], data[1], data[2], data[3]);
    var packages: seq<seq<Byte>> := [];
    var pos := 4;
    for i := 0 to total
      invariant 4 <= pos <= |data|
      invariant HasRead(data, packages, pos, total - i, whole)
    {
      ReadNext(data, packages, pos, total - i, whole);
      if pos + 1 >= |data| {
        return None;
      }
      var len := Le16(data[pos], data[pos + 1]);
      pos := pos + 2;
      if pos + len > |data| {
        return None;
      }
      packages := packages + [data[pos..pos + len]];
      pos := pos + len;
    }
    ReadEnds(data, packages, pos, whole);
    table := Some(packages);
  }

  predicate AllAscii(names: seq<Name>) {
    forall n :: n in names ==> IsAscii(n)
  }

  lemma LittleEndian16(n: nat)
    requires n < 0x1_0000
    ensures Le16(U16(n)[0], U16(n)[1]) == n
  {}

  lemma LittleEndian32(n: nat)
    requires n < 0x1_0000_0000
    ensures var b := U32(n); |b| == 4 && Le32(b[0], b[1], b[2], b[3]) == n
  {
    LittleEndian16(n % 0x1_0000);
    LittleEndian16(n / 0x1_0000);
  }

  lemma ReadChunk(name: Name, rest: seq<Byte>, total: nat)
    requires |name| < 0x1_0000 && total > 0 && |Utf8(name)| >= |name|
    ensures Read(Chunk(name) + rest, total) == Prepend([Utf8(name)[..|name|]], Read(Utf8(name)[|name|..] + rest, total - 1))
  {
    LittleEndian16(|name|);
    ReadPrefix(U16(|name|)[0], U16(|name|)[1], Utf8(name), rest, total);
    assert U16(|name|) == [U16(|name|)[0], U16(|name|)[1]];
  }

  lemma ReadPrefix(low: Byte, high: Byte, bytes: seq<Byte>, rest: seq<Byte>, total: nat)
    requires total > 0 && Le16(low, high) <= |bytes|
    ensures var len := Le16(low, high);
            Read(([low, high] + bytes) + rest, total) == Prepend([bytes[..len]], Read(bytes[len..] + rest, total - 1))
  {
    var len, data := Le16(low, high), ([low, high] + bytes) + rest;
    assert data[2..2 + len] == bytes[..len];
    assert data[2 + len..] == bytes[len..] + rest;
  }

  lemma MapFirst(names: seq<Name>)
    requires names != []
    ensures Map(names, Utf8) == [Utf8(names[0])] + Map(names[1..], Utf8)
  {}

  lemma PrependIs(first: seq<Byte>, rest: Option<seq<seq<Byte>>>, head: seq<Byte>, tail: seq<seq<Byte>>)
    ensures Prepend([first], rest) == Some([head] + tail) <==> first == head && rest == Some(tail)
  {
    if Prepend([first], rest) == Some([head] + tail) {
      assert ([first] + rest.value)[0] == first && ([head] + tail)[0] == head;
      assert ([first] + rest.value)[1..] == rest.value && ([head] + tail)[1..] == tail;
    }
  }

  lemma {:induction false} ReadChunks(names: seq<Name>)
    requires Short(names)
    ensures Read(Chunks(names), |names|) == Some(Map(names, Utf8)) <==> AllAscii(names)
  {
    if names == [] {
      assert Map(names, Utf8) == [];
    } else {
      var name, others := names[0], names[1..];
      assert names == [name] + others;
      Utf8Length(name);
      ReadChunk(name, Chunks(others), |names|);
      ReadChunks(others);
      MapFirst(names);
      var rest := Read(Utf8(name)[|name|..] + Chunks(others), |others|);
      PrependIs(Utf8(name)[..|name|], rest, Utf8(name), Map(others, Utf8));
      if IsAscii(name) {
        assert Utf8(name)[..|name|] == Utf8(name) && Utf8(name)[|name|..] + Chunks(others) == Chunks(others);
      } else {
        assert |Utf8(name)[..|name|]| != |Utf8(name)|;
      }
    }
  }

  /** The reader gets the names back exactly if all of them are ASCII: the writer counts code units. */
  lemma ReaderInvertsWriter(names: seq<Name>)
    requires Fits(names)
    ensures Table(Written(names).value) == Some(Map(names, Utf8)) <==> AllAscii(names)
  {
    var data := Written(names).value;
    LittleEndian32(|names|);
    assert data[4..] == Chunks(names);
    ReadChunks(names);
  }

  lemma {:induction false} SizesAgree(names: seq<Name>)
    requires Fits(names)
    ensures |Chunks(names)| >= SizeOf(names)
    ensures |Chunks(names)| == SizeOf(names) <==> AllAscii(names)
  {
    if names != [] {
      var init, last := names[..|names| - 1], names[|names| - 1];
      assert names == init + [last];
      SizesAgree(init);
      ChunksAppend(init, last);
      Utf8Length(last);
    }
  }

  // ---------- the index by first letter ----------

  const A: Unit := 97

  /** The letter number k. */
  function Letter(k: nat): Unit
    requires k <= 26
  {
    97 + k
  }

  /** The order of `sort()`: by code units. */
  predicate LexLe(x: Name, y: Name) {
    x == [] || (y != [] && (x[0] < y[0] || (x[0] == y[0] && LexLe(x[1..], y[1..]))))
  }

  lemma {:induction false} LexTotal(x: Name, y: Name)
    ensures LexLe(x, y) || LexLe(y, x)
  {
    if x != [] && y != [] {
      LexTotal(x[1..], y[1..]);
    }
  }

  lemma {:induction false} LexTransitive(x: Name, y: Name, z: Name)
    requires LexLe(x, y) && LexLe(y, z)
    ensures LexLe(x, z)
  {
    if x != [] && x[0] == y[0] && y[0] == z[0] {
      LexTransitive(x[1..], y[1..], z[1..]);
    }
  }

  lemma LexOrders(names: seq<Name>)
    ensures Orders(LexLe, names)
  {
    forall x, y | x in names && y in names ensures LexLe(x, y) || LexLe(y, x) {
      LexTotal(x, y);
    }
    forall x, y, z | x in names && y in names && z in names && LexLe(x, y) && LexLe(y, z) ensures LexLe(x, z) {
      LexTransitive(x, y, z);
    }
  }

  /** `lower` is `toLowerCase` on one code unit. */
  function Begins(lower: Unit -> Unit, letter: Unit): Name -> bool {
    (n: Name) => n != [] && lower(n[0]) == letter
  }

  function GroupSize(names: seq<Name>, lower: Unit -> Unit, letter: Unit): nat {
    |Filter(names, Begins(lower, letter))|
  }

  function LengthOf(lengths: map<Unit, nat>, letter: Unit): nat {
    if letter in lengths then lengths[letter] else 0
  }

  /** The map holds the size of every group. */
  ghost predicate Counts(lengths: map<Unit, nat>, names: seq<Name>, lower: Unit -> Unit) {
    forall letter: Unit :: LengthOf(lengths, letter) == GroupSize(names, lower, letter)
  }

  lemma CountIs(lengths: map<Unit, nat>, names: seq<Name>, lower: Unit -> Unit, letter: Unit)
    requires Counts(lengths, names, lower)
    ensures LengthOf(lengths, letter) == GroupSize(names, lower, letter)
  {}

  lemma GroupsNext(names: seq<Name>, i: nat, lower: Unit -> Unit)
    requires i < |names|
    ensures forall letter: Unit :: GroupSize(names[..i + 1], lower, letter) ==
              GroupSize(names[..i], lower, letter) + if Begins(lower, letter)(names[i]) then 1 else 0
  {
    forall letter: Unit
      ensures GroupSize(names[..i + 1], lower, letter) ==
              GroupSize(names[..i], lower, letter) + if Begins(lower, letter)(names[i]) then 1 else 0
    {
      FilterNext(names, i, Begins(lower, letter));
    }
  }

  method Group(names: seq<Name>, lower: Unit -> Unit) returns (lengths: map<Unit, nat>, maxListSize: nat)
    ensures Counts(lengths, names, lower)
    ensures forall letter: Unit :: GroupSize(names, lower, letter) <= maxListSize
    ensures maxListSize == 0 || exists letter: Unit :: GroupSize(names, lower, letter) == maxListSize
    ensures maxListSize == 0 ==> forall n :: n in names ==> n == []
  {
    lengths, maxListSize := map[], 0;
    for i := 0 to |names|
      invariant forall letter: Unit :: LengthOf(lengths, letter) == GroupSize(names[..i], lower, letter)
      invariant forall letter: Unit :: GroupSize(names[..i], lower, letter) <= maxListSize
      invariant maxListSize == 0 || exists letter: Unit :: GroupSize(names[..i], lower, letter) == maxListSize
      invariant maxListSize == 0 ==> forall n :: n in names[..i] ==> n == []
    {
      ghost var before, after := names[..i], names[..i + 1];
      assert after == before + [names[i]];
      GroupsNext(names, i, lower);
      if names[i] != [] {
        var firstLetter := lower(names[i][0]);
        if firstLetter !in lengths {
          lengths := lengths[firstLetter := 0];
        }
        lengths := lengths[firstLetter := lengths[firstLetter] + 1];
        assert GroupSize(after, lower, firstLetter) == lengths[firstLetter];
        maxListSize := if lengths[firstLetter] > maxListSize then lengths[firstLetter] else maxListSize;
      }
    }
    assert names[..|names|] == names;
  }

  /** Where the list of the `k`-th letter begins: after the lists of the letters before it. */
  function Offset(names: seq<Name>, lower: Unit -> Unit, k: nat): nat
    requires k <= 26
  {
    if k == 0 then 0 else Offset(names, lower, k - 1) + GroupSize(names, lower, Letter(k - 1))
  }

  /** Where the list of letter `k` begins, and its length. */
  function EntryOf(names: seq<Name>, lower: Unit -> Unit, k: nat): (nat, nat)
    requires k < 26
  {
    (Offset(names, lower, k), GroupSize(names, lower, Letter(k)))
  }

  ghost predicate IsIndex(index: seq<(nat, nat)>, names: seq<Name>, lower: Unit -> Unit) {
    |index| <= 26 && forall k :: 0 <= k < |index| ==> index[k] == EntryOf(names, lower, k)
  }

  lemma IndexNext(index: seq<(nat, nat)>, names: seq<Name>, lower: Unit -> Unit, entry: (nat, nat))
    requires IsIndex(index, names, lower) && |index| < 26 && entry == EntryOf(names, lower, |index|)
    ensures IsIndex(index + [entry], names, lower)
  {}

  /** For the first `letters` letters of the alphabet. */
  method MakeIndex(names: seq<Name>, lower: Unit -> Unit, lengths: map<Unit, nat>, letters: nat) returns (index: seq<(nat, nat)>)
    requires Counts(lengths, names, lower) && letters <= 26
    ensures |index| == letters && IsIndex(index, names, lower)
  {
    index := [];
    var offset: nat := 0;
    for k := 0 to letters
      invariant |index| == k && offset == Offset(names, lower, k) && IsIndex(index, names, lower)
    {
      var len := LengthOf(lengths, Letter(k));
      CountIs(lengths, names, lower, Letter(k));
      IndexNext(index, names, lower, (offset, len));
      index := index + [(offset, len)];
      offset := offset + len;
    }
  }

  /** `get_packages`; None stands for a slice out of bounds, which panics. */
  function GetPackages<T>(table: seq<T>, entry: (nat, nat)): Option<seq<T>> {
    if entry.1 == 0 then Some([])
    else if entry.0 + entry.1 <= |table| then Some(table[entry.0..entry.0 + entry.1])
    else None
  }

  function BeginsBelow(u: int): Name -> bool {
    (n: Name) => n != [] && n[0] < u
  }

  function CountBelow(names: seq<Name>, u: int): nat {
    |Filter(names, BeginsBelow(u))|
  }

  // ---------- when a slice is what a filter keeps ----------

  /** Before every element that is kept, `o` others stand. */
  ghost predicate OthersBefore<T>(s: seq<T>, keep: T -> bool, o: int) {
    forall i :: 0 <= i < |s| && keep(s[i]) ==> i - |Filter(s[..i], keep)| == o
  }

  lemma OthersBeforeInit<T>(s: seq<T>, keep: T -> bool, o: int)
    requires s != [] && OthersBefore(s, keep, o)
    ensures OthersBefore(s[..|s| - 1], keep, o)
  {
    var init := s[..|s| - 1];
    forall i | 0 <= i < |init| && keep(init[i]) ensures i - |Filter(init[..i], keep)| == o {
      assert init[..i] == s[..i];
    }
  }

  /** Then the elements that are kept are consecutive. */
  lemma {:induction false} KeptIsSlice<T>(s: seq<T>, keep: T -> bool, o: nat)
    requires OthersBefore(s, keep, o)
    ensures var kept := Filter(s, keep); kept == [] || (o + |kept| <= |s| && s[o..o + |kept|] == kept)
  {
    if s != [] {
      var init, last := s[..|s| - 1], s[|s| - 1];
      OthersBeforeInit(s, keep, o);
      KeptIsSlice(init, keep, o);
      var kept := Filter(init, keep);
      if keep(last) {
        assert |init| == o + |kept|;
        assert s[o..|s|] == init[o..|init|] + [last];
        assert init[o..|init|] == kept;
      } else {
        Regroup(kept, [], []);
        assert kept != [] ==> s[o..o + |kept|] == init[o..o + |kept|];
      }
    }
  }

  lemma {:induction false} AllKept<T>(s: seq<T>, keep: T -> bool)
    requires forall x :: x in s ==> keep(x)
    ensures Filter(s, keep) == s
  {
    if s != [] {
      assert s == s[..|s| - 1] + [s[|s| - 1]];
      AllKept(s[..|s| - 1], keep);
    }
  }

  lemma NoneKept<T>(s: seq<T>, keep: T -> bool)
    ensures Filter(s, keep) == [] <==> forall x :: x in s ==> !keep(x)
  {
    var kept := Filter(s, keep);
    if kept != [] {
      FilterMembers(s, keep, kept[0]);
    } else {
      forall x | x in s ensures !keep(x) {
        FilterMembers(s, keep, x);
      }
    }
  }

  lemma ThreeSlices<T>(s: seq<T>, keep: T -> bool, lo: nat, hi: nat)
    requires lo <= hi <= |s|
    ensures |Filter(s, keep)| == |Filter(s[..lo], keep)| + |Filter(s[lo..hi], keep)| + |Filter(s[hi..], keep)|
  {
    CutAt(s, hi);
    FilterAppend(s[..hi], s[hi..], keep);
    assert s[..hi] == s[..lo] + s[lo..hi];
    FilterAppend(s[..lo], s[lo..hi], keep);
  }

  /** A slice that is what the filter keeps holds everything that is kept. */
  lemma SliceHoldsKept<T>(s: seq<T>, keep: T -> bool, lo: nat, hi: nat)
    requires lo <= hi <= |s| && s[lo..hi] == Filter(s, keep)
    ensures Filter(s[lo..hi], keep) == s[lo..hi] && Filter(s[..lo], keep) == [] && Filter(s[hi..], keep) == []
  {
    forall x | x in s[lo..hi] ensures keep(x) {
      FilterMembers(s, keep, x);
    }
    AllKept(s[lo..hi], keep);
    ThreeSlices(s, keep, lo, hi);
  }

  lemma SliceHasOthersBefore<T>(s: seq<T>, keep: T -> bool, lo: nat, hi: nat, i: nat)
    requires lo <= hi <= |s| && s[lo..hi] == Filter(s, keep) && i < |s| && keep(s[i])
    ensures i - |Filter(s[..i], keep)| == lo
  {
    SliceHoldsKept(s, keep, lo, hi);
    if i < lo {
      NotKeptAt(s[..lo], keep, i);
    } else if i >= hi {
      NotKeptAt(s[hi..], keep, i - hi);
    } else {
      OthersUpTo(s, keep, lo, hi, i);
    }
  }

  lemma NotKeptAt<T>(s: seq<T>, keep: T -> bool, i: nat)
    requires Filter(s, keep) == [] && i < |s|
    ensures !keep(s[i])
  {
    NoneKept(s, keep);
    assert s[i] in s;
  }

  lemma OthersUpTo<T>(s: seq<T>, keep: T -> bool, lo: nat, hi: nat, i: nat)
    requires lo <= i <= hi <= |s| && Filter(s[..lo], keep) == [] && Filter(s[lo..hi], keep) == s[lo..hi]
    ensures i - |Filter(s[..i], keep)| == lo
  {
    assert s[..i] == s[..lo] + s[lo..i];
    FilterAppend(s[..lo], s[lo..i], keep);
    forall x | x in s[lo..i] ensures keep(x) {
      var j :| 0 <= j < i - lo && s[lo..i][j] == x;
      assert s[lo..hi][j] == x;
      FilterMembers(s[lo..hi], keep, x);
    }
    AllKept(s[lo..i], keep);
  }

  lemma SliceIff<T>(s: seq<T>, keep: T -> bool, o: nat)
    requires o + |Filter(s, keep)| <= |s|
    ensures s[o..o + |Filter(s, keep)|] == Filter(s, keep) <==> OthersBefore(s, keep, o)
  {
    var n := |Filter(s, keep)|;
    if OthersBefore(s, keep, o) {
      KeptIsSlice(s, keep, o);
    }
    if s[o..o + n] == Filter(s, keep) {
      forall i | 0 <= i < |s| && keep(s[i]) ensures i - |Filter(s[..i], keep)| == o {
        SliceHasOthersBefore(s, keep, o, o + n, i);
      }
    }
  }

  // ---------- the list for a letter ----------

  predicate NonEmpty(names: seq<Name>) {
    forall i :: 0 <= i < |names| ==> names[i] != []
  }

  function OtherBelow(lower: Unit -> Unit, letter: Unit, u: int): Name -> bool {
    (n: Name) => n != [] && n[0] < u && lower(n[0]) != letter
  }

  /** The names that begin below `u` and are filed under another letter. */
  function OthersBelow(names: seq<Name>, lower: Unit -> Unit, letter: Unit, u: int): nat {
    |Filter(names, OtherBelow(lower, letter, u))|
  }

  lemma {:induction false} FilterSame<T>(s: seq<T>, f: T -> bool, g: T -> bool)
    requires forall i :: 0 <= i < |s| ==> f(s[i]) == g(s[i])
    ensures Filter(s, f) == Filter(s, g)
  {
    if s != [] {
      FilterSame(s[..|s| - 1], f, g);
    }
  }

  lemma {:induction false} OthersAndKept<T>(s: seq<T>, keep: T -> bool, drop: T -> bool)
    requires forall i :: 0 <= i < |s| ==> drop(s[i]) == !keep(s[i])
    ensures |Filter(s, keep)| + |Filter(s, drop)| == |s|
  {
    if s != [] {
      OthersAndKept(s[..|s| - 1], keep, drop);
    }
  }

  lemma FirstsAscend(names: seq<Name>, i: nat, j: nat)
    requires SortedBy(names, LexLe) && NonEmpty(names) && i <= j < |names|
    ensures names[i][0] <= names[j][0]
  {
    if i < j {
      assert LexLe(names[i], names[j]);
    }
  }

  /** In a sorted list these are the others that stand before name `i`. */
  lemma OthersStandBefore(names: seq<Name>, lower: Unit -> Unit, letter: Unit, i: nat)
    requires SortedBy(names, LexLe) && NonEmpty(names) && i < |names| && Begins(lower, letter)(names[i])
    ensures i - |Filter(names[..i], Begins(lower, letter))| == OthersBelow(names, lower, letter, names[i][0])
  {
    var u := names[i][0];
    var other := OtherBelow(lower, letter, u);
    var before, after := names[..i], names[i..];
    forall j | 0 <= j < |before| ensures other(before[j]) == !Begins(lower, letter)(before[j]) {
      FirstsAscend(names, j, i);
    }
    OthersAndKept(before, Begins(lower, letter), other);
    forall x | x in after ensures !other(x) {
      var j :| 0 <= j < |after| && after[j] == x;
      FirstsAscend(names, i, i + j);
    }
    NoneKept(after, other);
    CutAt(names, i);
    FilterAppend(before, after, other);
  }

  function BeforeLetter(lower: Unit -> Unit, k: nat): Name -> bool {
    (n: Name) => n != [] && A <= lower(n[0]) < A + k
  }

  lemma {:induction false} BeforeNext(names: seq<Name>, lower: Unit -> Unit, k: nat)
    requires k < 26
    ensures |Filter(names, BeforeLetter(lower, k + 1))| ==
            |Filter(names, BeforeLetter(lower, k))| + GroupSize(names, lower, Letter(k))
  {
    if names != [] {
      BeforeNext(names[..|names| - 1], lower, k);
    }
  }

  lemma {:induction false} NothingBefore(names: seq<Name>, lower: Unit -> Unit)
    ensures Filter(names, BeforeLetter(lower, 0)) == []
  {
    NoneKept(names, BeforeLetter(lower, 0));
  }

  /** The offset counts the names that are filed under earlier letters. */
  lemma {:induction false} OffsetCounts(names: seq<Name>, lower: Unit -> Unit, k: nat)
    requires k <= 26
    ensures Offset(names, lower, k) == |Filter(names, BeforeLetter(lower, k))|
  {
    if k == 0 {
      NothingBefore(names, lower);
    } else {
      OffsetCounts(names, lower, k - 1);
      BeforeNext(names, lower, k - 1);
    }
  }

  lemma SliceFits(names: seq<Name>, lower: Unit -> Unit, k: nat)
    requires k < 26
    ensures Offset(names, lower, k) + GroupSize(names, lower, Letter(k)) <= |names|
  {
    OffsetCounts(names, lower, k);
    BeforeNext(names, lower, k);
    FilterIsNoLonger(names, BeforeLetter(lower, k + 1));
  }

  /** `get_packages` is never out of bounds, whatever the names are and however they are filed. */
  lemma PackagesNeverPanic(names: seq<Name>, lower: Unit -> Unit, k: nat)
    requires k < 26
    ensures var (o, n) := EntryOf(names, lower, k);
            o + n <= |names| && GetPackages(names, (o, n)) == Some(names[o..o + n])
  {
    SliceFits(names, lower, k);
    GetInside(names, Offset(names, lower, k), GroupSize(names, lower, Letter(k)));
  }

  lemma GetInside<T>(table: seq<T>, o: nat, n: nat)
    requires o + n <= |table|
    ensures GetPackages(table, (o, n)) == Some(table[o..o + n])
  {
    if n == 0 {
      assert table[o..o + n] == [];
    }
  }

  lemma SortKeepsCounts(unsorted: seq<Name>, lower: Unit -> Unit, k: nat, u: int)
    requires k < 26
    ensures Offset(Sort(unsorted, LexLe), lower, k) == Offset(unsorted, lower, k)
    ensures OthersBelow(Sort(unsorted, LexLe), lower, Letter(k), u) == OthersBelow(unsorted, lower, Letter(k), u)
  {
    var names := Sort(unsorted, LexLe);
    SortPermutes(unsorted, LexLe);
    OffsetCounts(names, lower, k);
    OffsetCounts(unsorted, lower, k);
    SameCount(names, unsorted, BeforeLetter(lower, k));
    SameCount(names, unsorted, OtherBelow(lower, Letter(k), u));
  }

  lemma SameCount<T>(s: seq<T>, t: seq<T>, keep: T -> bool)
    requires multiset(s) == multiset(t)
    ensures |Filter(s, keep)| == |Filter(t, keep)|
  {
    FilterPermuted(s, t, keep);
    SameLength(Filter(s, keep), Filter(t, keep));
  }

  lemma SortedNames(unsorted: seq<Name>)
    requires NonEmpty(unsorted)
    ensures SortedBy(Sort(unsorted, LexLe), LexLe) && NonEmpty(Sort(unsorted, LexLe))
    ensures forall n :: n in Sort(unsorted, LexLe) <==> n in unsorted
  {
    LexOrders(unsorted);
    SortSorts(unsorted, LexLe);
    SortPermutes(unsorted, LexLe);
    SameMembers(Sort(unsorted, LexLe), unsorted);
    forall i | 0 <= i < |Sort(unsorted, LexLe)| ensures Sort(unsorted, LexLe)[i] != [] {
      assert Sort(unsorted, LexLe)[i] in unsorted;
    }
  }

  /** For each name with the letter, as many names of other letters begin below it as are filed under
      earlier letters. */
  ghost predicate FiledInOrder(names: seq<Name>, lower: Unit -> Unit, k: nat)
    requires k < 26
  {
    forall n :: n in names && Begins(lower, Letter(k))(n) ==>
      OthersBelow(names, lower, Letter(k), n[0]) == Offset(names, lower, k)
  }

  lemma FiledIsBefore(names: seq<Name>, lower: Unit -> Unit, k: nat)
    requires k < 26 && SortedBy(names, LexLe) && NonEmpty(names)
    ensures FiledInOrder(names, lower, k) <==> OthersBefore(names, Begins(lower, Letter(k)), Offset(names, lower, k))
  {
    var keep := Begins(lower, Letter(k));
    forall i | 0 <= i < |names| && keep(names[i])
      ensures i - |Filter(names[..i], keep)| == OthersBelow(names, lower, Letter(k), names[i][0])
    {
      OthersStandBefore(names, lower, Letter(k), i);
    }
    assert forall i :: 0 <= i < |names| ==> names[i] in names;
  }

  lemma FiledWhenSorted(unsorted: seq<Name>, lower: Unit -> Unit, k: nat)
    requires k < 26 && NonEmpty(unsorted)
    ensures FiledInOrder(Sort(unsorted, LexLe), lower, k) <==> FiledInOrder(unsorted, lower, k)
  {
    var names := Sort(unsorted, LexLe);
    SortedNames(unsorted);
    forall u: int
      ensures OthersBelow(names, lower, Letter(k), u) == OthersBelow(unsorted, lower, Letter(k), u)
      ensures Offset(names, lower, k) == Offset(unsorted, lower, k)
    {
      SortKeepsCounts(unsorted, lower, k, u);
    }
  }

  /** The slice for a letter. */
  lemma SliceIsFiled(names: seq<Name>, lower: Unit -> Unit, k: nat, o: nat, kept: seq<Name>)
    requires k < 26 && SortedBy(names, LexLe) && NonEmpty(names)
    requires o == Offset(names, lower, k) && kept == Filter(names, Begins(lower, Letter(k))) && o + |kept| <= |names|
    ensures names[o..o + |kept|] == kept <==> FiledInOrder(names, lower, k)
  {
    SliceIff(names, Begins(lower, Letter(k)), o);
    FiledIsBefore(names, lower, k);
  }

  lemma PackagesOfSorted(names: seq<Name>, lower: Unit -> Unit, k: nat)
    requires k < 26 && SortedBy(names, LexLe) && NonEmpty(names)
    ensures var got := GetPackages(names, EntryOf(names, lower, k));
            && got.Some?
            && (got.value == Filter(names, Begins(lower, Letter(k))) <==> FiledInOrder(names, lower, k))
  {
    PackagesNeverPanic(names, lower, k);
    SliceIsFiled(names, lower, k, Offset(names, lower, k), Filter(names, Begins(lower, Letter(k))));
  }

  /** `get_packages` gives exactly the names with the letter, sorted, if and only if they are filed in order. */
  lemma PackagesOfLetter(unsorted: seq<Name>, lower: Unit -> Unit, k: nat)
    requires NonEmpty(unsorted) && k < 26
    ensures var names := Sort(unsorted, LexLe);
            var got := GetPackages(names, EntryOf(names, lower, k));
            && got.Some?
            && (got.value == Filter(names, Begins(lower, Letter(k))) <==> FiledInOrder(unsorted, lower, k))
  {
    SortedNames(unsorted);
    PackagesOfSorted(Sort(unsorted, LexLe), lower, k);
    FiledWhenSorted(unsorted, lower, k);
  }

  /** Names that begin with an upper-case letter are filed with the lower-case ones but sorted before them:
      of "B" and "a" the list for "a" is "B". */
  lemma UpperCaseIsMisfiled(lower: Unit -> Unit)
    requires lower(66) == 98 && lower(97) == 97
    ensures var names := Sort([[97], [66]], LexLe);
            && names == [[66], [97]]
            && GetPackages(names, EntryOf(names, lower, 0)) == Some([[66]])
            && Filter(names, Begins(lower, Letter(0))) == [[97]]
  {
    var a, b: Name := [97], [66];
    SortTwo(a, b);
    FilterTwo(b, a, Begins(lower, Letter(0)));
    GetInside([b, a], 0, 1);
    assert [b, a][0..1] == [b];
  }

  lemma SortTwo(a: Name, b: Name)
    requires !LexLe(a, b)
    ensures Sort([a, b], LexLe) == [b, a]
  {
    var none: seq<Name> := [];
    assert none + [a] == [a] && [a] + [b] == [a, b] && [b] + [a] == [b, a] && none + [b] == [b];
    SortAppend(none, a, LexLe);
    SortAppend([a], b, LexLe);
    InsertAppend(none, a, b, LexLe);
  }

  lemma FilterTwo(a: Name, b: Name, keep: Name -> bool)
    requires !keep(a) && keep(b)
    ensures Filter([a, b], keep) == [b]
  {
    var none: seq<Name> := [];
    assert [a, b][..0] == none && [a, b][..1] == [a] && [a, b][..2] == [a, b] && none + none == none && none + [b] == [b];
    FilterNext([a, b], 0, keep);
    FilterNext([a, b], 1, keep);
  }

  // ---------- names in lower case ----------

  /** No name is filed under another letter than its own. */
  predicate Lower(names: seq<Name>, lower: Unit -> Unit) {
    forall i :: 0 <= i < |names| ==> names[i] != [] && lower(names[i][0]) == names[i][0]
  }

  lemma {:induction false} CountNext(names: seq<Name>, lower: Unit -> Unit, u: Unit)
    requires Lower(names, lower)
    ensures CountBelow(names, u + 1) == CountBelow(names, u) + GroupSize(names, lower, u)
  {
    if names != [] {
      assert names == names[..|names| - 1] + [names[|names| - 1]];
      CountNext(names[..|names| - 1], lower, u);
    }
  }

  lemma {:induction false} OffsetIs(names: seq<Name>, lower: Unit -> Unit, k: nat)
    requires Lower(names, lower) && k <= 26
    ensures Offset(names, lower, k) == CountBelow(names, Letter(k)) - CountBelow(names, A)
  {
    if k > 0 {
      OffsetIs(names, lower, k - 1);
      CountNext(names, lower, Letter(k - 1));
    }
  }

  lemma NoneBelow(names: seq<Name>, u: int)
    requires NonEmpty(names)
    ensures CountBelow(names, u) == 0 <==> forall i :: 0 <= i < |names| ==> names[i][0] >= u
  {
    NoneKept(names, BeginsBelow(u));
    assert forall i :: 0 <= i < |names| ==> names[i] in names;
  }

  lemma NoneWith(names: seq<Name>, lower: Unit -> Unit, u: Unit)
    requires Lower(names, lower)
    ensures GroupSize(names, lower, u) == 0 <==> forall i :: 0 <= i < |names| ==> names[i][0] != u
  {
    NoneKept(names, Begins(lower, u));
    assert forall i :: 0 <= i < |names| ==> names[i] in names;
  }

  lemma OthersOfLower(names: seq<Name>, lower: Unit -> Unit, u: Unit)
    requires Lower(names, lower)
    ensures OthersBelow(names, lower, u, u) == CountBelow(names, u)
  {
    FilterSame(names, OtherBelow(lower, u, u), BeginsBelow(u));
  }

  /** When no name begins with an upper-case letter, the list is right if and only if no name of the list
      begins below 'a' or none begins with the letter. */
  lemma PackagesOfLowerNames(unsorted: seq<Name>, lower: Unit -> Unit, k: nat)
    requires Lower(unsorted, lower) && k < 26
    ensures var names := Sort(unsorted, LexLe);
            var got := GetPackages(names, EntryOf(names, lower, k));
            && got.Some?
            && (got.value == Filter(names, Begins(lower, Letter(k))) <==>
                (forall i :: 0 <= i < |unsorted| ==> unsorted[i][0] >= A) ||
                (forall i :: 0 <= i < |unsorted| ==> unsorted[i][0] != Letter(k)))
  {
    PackagesOfLetter(unsorted, lower, k);
    OffsetIs(unsorted, lower, k);
    OthersOfLower(unsorted, lower, Letter(k));
    NoneBelow(unsorted, A);
    assert forall i :: 0 <= i < |unsorted| ==> unsorted[i] in unsorted;
  }

  lemma AsciiBytes(names: seq<Name>)
    requires AllAscii(names)
    ensures Map(names, Utf8) == names
  {
    forall i | 0 <= i < |names| ensures Utf8(names[i]) == names[i] {
      Utf8Length(names[i]);
    }
  }

  lemma SortedFits(unsorted: seq<Name>)
    requires Fits(unsorted) && AllAscii(unsorted)
    ensures Fits(Sort(unsorted, LexLe)) && AllAscii(Sort(unsorted, LexLe))
  {
    SortPermutes(unsorted, LexLe);
    SameLength(Sort(unsorted, LexLe), unsorted);
    SameMembers(Sort(unsorted, LexLe), unsorted);
  }

  /** From the lines of the file to the list for a letter: what is read back is the sorted list of the
      names, and the list for the letter is the sublist that begins with it. */
  lemma CompletionsAreFound(unsorted: seq<Name>, lower: Unit -> Unit, k: nat)
    requires Fits(unsorted) && AllAscii(unsorted) && Lower(unsorted, lower) && k < 26
    requires forall i :: 0 <= i < |unsorted| ==> unsorted[i][0] >= A
    ensures var names := Sort(unsorted, LexLe);
            && Written(names).Some? && Table(Written(names).value) == Some(names)
            && GetPackages(names, EntryOf(names, lower, k)) ==
               Some(Filter(names, Begins(lower, Letter(k))))
  {
    var names := Sort(unsorted, LexLe);
    SortedFits(unsorted);
    ReaderInvertsWriter(names);
    AsciiBytes(names);
    PackagesOfLowerNames(unsorted, lower, k);
  }

  /** BIGGEST_LIST is the length of the longest list when every name begins with a letter. */
  lemma BiggestListIsReached(names: seq<Name>, lower: Unit -> Unit, biggest: nat)
    requires names != [] && Lower(names, lower) && forall i :: 0 <= i < |names| ==> A <= names[i][0] < A + 26
    requires forall letter: Unit :: GroupSize(names, lower, letter) <= biggest
    requires exists letter: Unit :: GroupSize(names, lower, letter) == biggest
    ensures exists letter: Unit :: A <= letter < A + 26 && GroupSize(names, lower, letter) == biggest
  {
    var letter: Unit :| GroupSize(names, lower, letter) == biggest;
    NoneWith(names, lower, names[0][0]);
    assert names[0] in names;
    NoneWith(names, lower, letter);
  }
}
