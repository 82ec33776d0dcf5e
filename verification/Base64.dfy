/** The table decoder of `__toBytes` in src/runtime.js, for engines without `Uint8Array.fromBase64`,
    against the encoding of section 4 of RFC 4648. */
module Base64 {
  import opened Bits

  type Byte = b: int | 0 <= b < 256

  type Sextet = b: int | 0 <= b < 64

  // ---------- the table ----------

  /** Where the decoder's table has the value `i`. */
  function TableIndex(i: Sextet): (k: nat)
    ensures k < 128
  {
    if i < 26 then i + 65 else if i < 52 then i + 71 else if i < 62 then i - 4 else i * 4 - 205
  }

  lemma TableIndexIsInjective(i: Sextet, j: Sextet)
    requires TableIndex(i) == TableIndex(j)
    ensures i == j
  {}

  /** The table after the values below `n`. */
  ghost predicate IsTable(t: seq<Byte>, n: nat) {
    && |t| == 128
    && (forall i: Sextet :: i < n ==> t[TableIndex(i)] == i)
    && (forall k :: 0 <= k < 128 && (forall i: Sextet :: i < n ==> TableIndex(i) != k) ==> t[k] == 0)
  }

  method BuildTable() returns (t: array<Byte>)
    ensures fresh(t) && IsTable(t[..], 64)
  {
    t := new Byte[128](_ => 0);
    var i := 0;
    while i < 64
      invariant 0 <= i <= 64 && t.Length == 128
      invariant IsTable(t[..], i)
    {
      ghost var before := t[..];
      t[TableIndex(i)] := i;
      ExtendTable(before, i);
      assert t[..] == before[TableIndex(i) := i];
      i := i + 1;
    }
  }

  lemma ExtendTable(t: seq<Byte>, n: Sextet)
    requires IsTable(t, n)
    ensures IsTable(t[TableIndex(n) := n], n + 1)
  {
    forall i: Sextet | i < n ensures TableIndex(i) != TableIndex(n) {
      if TableIndex(i) == TableIndex(n) { TableIndexIsInjective(i, n); }
    }
  }

  // ---------- the decoder ----------

  /** `table[base64.charCodeAt(i)]` as an operand of a bit operation: 0 where either is missing. */
  function ValueAt(t: seq<Byte>, base64: string, i: nat): Byte
    requires |t| == 128
  {
    if i < |base64| && base64[i] as int < 128 then t[base64[i] as int] else 0
  }

  /** `(((n - (base64[n - 1] == "=") - (base64[n - 2] == "=")) * 3) / 4) | 0` */
  function OutputLength(base64: string): nat {
    var n := |base64|;
    var last := if n >= 1 && base64[n - 1] == '=' then 1 else 0;
    var lastButOne := if n >= 2 && base64[n - 2] == '=' then 1 else 0;
    (n - last - lastButOne) * 3 / 4
  }

  /** Byte `r` of the three that the loop computes from the four characters of group `q`. */
  function GroupByte(t: seq<Byte>, base64: string, q: nat, r: nat): Byte
    requires |t| == 128
  {
    if r == 0 then Or(ValueAt(t, base64, 4 * q) * 4, ValueAt(t, base64, 4 * q + 1) / 16) % 256
    else if r == 1 then Or(ValueAt(t, base64, 4 * q + 1) * 16, ValueAt(t, base64, 4 * q + 2) / 4) % 256
    else Or(ValueAt(t, base64, 4 * q + 2) * 64, ValueAt(t, base64, 4 * q + 3)) % 256
  }

  /** The byte at place `k`. */
  function ByteAt(t: seq<Byte>, base64: string, k: nat): Byte
    requires |t| == 128
  {
    GroupByte(t, base64, k / 3, k % 3)
  }

  /** `bytes[j] = value`: a typed array keeps eight bits, and nothing past its end. */
  method Put(bytes: array<Byte>, j: nat, value: nat)
    modifies bytes
    ensures forall k :: 0 <= k < bytes.Length && k != j ==> bytes[k] == old(bytes[k])
    ensures j < bytes.Length ==> bytes[j] == value % 256
  {
    if j < bytes.Length {
      bytes[j] := value % 256;
    }
  }

  /** The places below `j` are decoded. */
  ghost predicate DecodedUpTo(bytes: seq<Byte>, t: seq<Byte>, base64: string, j: nat)
    requires |t| == 128
  {
    forall k: nat :: k < |bytes| && k < j ==> bytes[k] == ByteAt(t, base64, k)
  }

  /** The places below `j + 1` are decoded when place `j` got its byte and no other changed. */
  lemma OneMoreDecoded(before: seq<Byte>, after: seq<Byte>, t: seq<Byte>, base64: string, j: nat)
    requires |t| == 128 && DecodedUpTo(before, t, base64, j) && |after| == |before|
    requires forall k :: 0 <= k < |after| && k != j ==> after[k] == before[k]
    requires j < |after| ==> after[j] == ByteAt(t, base64, j)
    ensures DecodedUpTo(after, t, base64, j + 1)
  {}

  /** One turn of the loop: four characters become three bytes. */
  method DecodeGroup(bytes: array<Byte>, t: array<Byte>, base64: string, i: nat, j: nat, ghost q: nat)
    requires t.Length == 128 && bytes != t && i == 4 * q && j == 3 * q
    requires DecodedUpTo(bytes[..], t[..], base64, j)
    modifies bytes
    ensures DecodedUpTo(bytes[..], t[..], base64, j + 3)
  {
    var c0: nat, c1: nat := ValueAt(t[..], base64, i), ValueAt(t[..], base64, i + 1);
    var c2: nat, c3: nat := ValueAt(t[..], base64, i + 2), ValueAt(t[..], base64, i + 3);
    PlacesOfGroup(t[..], base64, q);
    ghost var b0 := bytes[..];
    Put(bytes, j, Or(c0 * 4, c1 / 16));
    ghost var b1 := bytes[..];
    OneMoreDecoded(b0, b1, t[..], base64, j);
    Put(bytes, j + 1, Or(c1 * 16, c2 / 4));
    ghost var b2 := bytes[..];
    OneMoreDecoded(b1, b2, t[..], base64, j + 1);
    Put(bytes, j + 2, Or(c2 * 64, c3));
    OneMoreDecoded(b2, bytes[..], t[..], base64, j + 2);
  }

  method ToBytes(base64: string) returns (bytes: array<Byte>, ghost table: seq<Byte>)
    ensures fresh(bytes) && IsTable(table, 64)
    ensures bytes.Length == OutputLength(base64)
    ensures DecodedUpTo(bytes[..], table, base64, bytes.Length)
  {
    var t := BuildTable();
    table := t[..];
    var n := |base64|;
    bytes := new Byte[OutputLength(base64)](_ => 0);
    var i, j := 0, 0;
    ghost var q := 0;
    while i < n
      invariant i == 4 * q && j == 3 * q
      invariant t[..] == table && fresh(bytes) && bytes != t && bytes.Length == OutputLength(base64)
      invariant DecodedUpTo(bytes[..], table, base64, j)
      decreases n - i
    {
      DecodeGroup(bytes, t, base64, i, j, q);
      i, j, q := i + 4, j + 3, q + 1;
    }
    OutputFits(base64, q);
  }

  lemma PlacesOfGroup(t: seq<Byte>, base64: string, q: nat)
    requires |t| == 128
    ensures ByteAt(t, base64, 3 * q) == GroupByte(t, base64, q, 0)
    ensures ByteAt(t, base64, 3 * q + 1) == GroupByte(t, base64, q, 1)
    ensures ByteAt(t, base64, 3 * q + 2) == GroupByte(t, base64, q, 2)
  {
    assert 3 * q / 3 == q && (3 * q + 1) / 3 == q && (3 * q + 2) / 3 == q;
  }

  lemma OutputFits(base64: string, q: nat)
    requires |base64| <= 4 * q
    ensures OutputLength(base64) <= 3 * q
  {}

  // ---------- the encoding ----------

  /** The alphabet of section 4 of RFC 4648. */
  function Letter(v: Sextet): char {
    if v < 26 then ('A' as int + v) as char
    else if v < 52 then ('a' as int + (v - 26)) as char
    else if v < 62 then ('0' as int + (v - 52)) as char
    else if v == 62 then '+' else '/'
  }

  /** The four values that three bytes make. */
  function Sextet0(b0: Byte): Sextet { b0 / 4 }

  function Sextet1(b0: Byte, b1: Byte): Sextet { b0 % 4 * 16 + b1 / 16 }

  function Sextet2(b1: Byte, b2: Byte): Sextet { b1 % 16 * 4 + b2 / 64 }

  function Sextet3(b2: Byte): Sextet { b2 % 64 }

  /** The last group is filled up with zero bits, and padded. */
  function Encode(bs: seq<Byte>): string {
    if bs == [] then []
    else if |bs| == 1 then [Letter(Sextet0(bs[0])), Letter(Sextet1(bs[0], 0)), '=', '=']
    else if |bs| == 2 then
      [Letter(Sextet0(bs[0])), Letter(Sextet1(bs[0], bs[1])), Letter(Sextet2(bs[1], 0)), '=']
    else
      [Letter(Sextet0(bs[0])), Letter(Sextet1(bs[0], bs[1])), Letter(Sextet2(bs[1], bs[2])), Letter(Sextet3(bs[2]))]
      + Encode(bs[3..])
  }

  /** The decoder's table has every letter of the alphabet at its character code. */
  lemma LetterIsInTable(v: Sextet)
    ensures Letter(v) as int == TableIndex(v) && Letter(v) != '='
  {}

  lemma ValueOfLetter(t: seq<Byte>, base64: string, i: nat, v: Sextet)
    requires IsTable(t, 64) && i < |base64| && base64[i] == Letter(v)
    ensures ValueAt(t, base64, i) == v
  {
    LetterIsInTable(v);
  }

  // ---------- the round trip ----------

  function At(bs: seq<Byte>, k: nat): Byte {
    if k < |bs| then bs[k] else 0
  }

  /** Group `q` of the encoding. */
  ghost predicate HasGroup(e: string, bs: seq<Byte>, q: nat) {
    var (b0, b1, b2) := (At(bs, 3 * q), At(bs, 3 * q + 1), At(bs, 3 * q + 2));
    && 4 * q + 3 < |e|
    && e[4 * q] == Letter(Sextet0(b0)) && e[4 * q + 1] == Letter(Sextet1(b0, b1))
    && e[4 * q + 2] == (if 3 * q + 1 < |bs| then Letter(Sextet2(b1, b2)) else '=')
    && e[4 * q + 3] == (if 3 * q + 2 < |bs| then Letter(Sextet3(b2)) else '=')
  }

  lemma FirstGroup(bs: seq<Byte>)
    requires bs != []
    ensures HasGroup(Encode(bs), bs, 0)
  {}

  lemma EncodeRest(bs: seq<Byte>)
    requires |bs| >= 3
    ensures |Encode(bs)| == 4 + |Encode(bs[3..])| && Encode(bs)[4..] == Encode(bs[3..])
  {}

  lemma LaterGroup(e: string, bs: seq<Byte>, q: nat)
    requires |bs| >= 3 && |e| >= 4 && HasGroup(e[4..], bs[3..], q)
    ensures HasGroup(e, bs, q + 1)
  {}

  lemma {:induction false} EncodedGroup(bs: seq<Byte>, q: nat)
    requires 3 * q < |bs|
    ensures HasGroup(Encode(bs), bs, q)
  {
    if q == 0 {
      FirstGroup(bs);
    } else {
      EncodedGroup(bs[3..], q - 1);
      EncodeRest(bs);
      LaterGroup(Encode(bs), bs, q - 1);
    }
  }

  lemma {:induction false} EncodedLength(bs: seq<Byte>, q: nat)
    requires 3 * q < |bs| <= 3 * q + 3
    ensures |Encode(bs)| == 4 * q + 4
  {
    if q > 0 {
      EncodeRest(bs);
      EncodedLength(bs[3..], q - 1);
    }
  }

  lemma LengthFromPadding(base64: string, q: nat, n: nat)
    requires |base64| == 4 * q + 4 && 3 * q < n <= 3 * q + 3
    requires base64[4 * q + 3] == '=' <==> n < 3 * q + 3
    requires base64[4 * q + 2] == '=' <==> n < 3 * q + 2
    ensures OutputLength(base64) == n
  {}

  lemma PaddingOfLastGroup(bs: seq<Byte>, q: nat)
    requires 3 * q < |bs| <= 3 * q + 3
    ensures |Encode(bs)| == 4 * q + 4
    ensures Encode(bs)[4 * q + 3] == '=' <==> |bs| < 3 * q + 3
    ensures Encode(bs)[4 * q + 2] == '=' <==> |bs| < 3 * q + 2
  {
    EncodedLength(bs, q);
    EncodedGroup(bs, q);
    LetterIsInTable(Sextet2(At(bs, 3 * q + 1), At(bs, 3 * q + 2)));
    LetterIsInTable(Sextet3(At(bs, 3 * q + 2)));
  }

  /** The length that the decoder computes from the padding is the length of the input. */
  lemma LengthIsRestored(bs: seq<Byte>)
    ensures OutputLength(Encode(bs)) == |bs|
  {
    if bs != [] {
      var q := (|bs| - 1) / 3;
      PaddingOfLastGroup(bs, q);
      LengthFromPadding(Encode(bs), q, |bs|);
    }
  }

  lemma FirstByte(v: nat, b0: Byte, b1: Byte)
    requires v == 4 * Sextet0(b0) + Sextet1(b0, b1) / 16
    ensures v % 256 == b0
  {
    assert Sextet1(b0, b1) / 16 == b0 % 4;
    assert v == b0;
  }

  lemma SecondByte(v: nat, b0: Byte, b1: Byte, b2: Byte)
    requires v == 16 * Sextet1(b0, b1) + Sextet2(b1, b2) / 4
    ensures v % 256 == b1
  {
    assert Sextet2(b1, b2) / 4 == b1 % 16;
    assert v == b0 % 4 * 256 + b1;
  }

  lemma ThirdByte(v: nat, b1: Byte, b2: Byte)
    requires v == 64 * Sextet2(b1, b2) + Sextet3(b2)
    ensures v % 256 == b2
  {
    assert v == b1 % 16 * 256 + b2;
  }

  lemma JoinFirst(b0: Byte, b1: Byte)
    ensures Or(Sextet0(b0) * 4, Sextet1(b0, b1) / 16) % 256 == b0
  {
    var x: nat, y: nat := Sextet0(b0), Sextet1(b0, b1) / 16;
    OrAdds4(x, y);
    FirstByte(Or(4 * x, y), b0, b1);
  }

  lemma JoinSecond(b0: Byte, b1: Byte, b2: Byte)
    ensures Or(Sextet1(b0, b1) * 16, Sextet2(b1, b2) / 4) % 256 == b1
  {
    var x: nat, y: nat := Sextet1(b0, b1), Sextet2(b1, b2) / 4;
    OrAdds16(x, y);
    SecondByte(Or(16 * x, y), b0, b1, b2);
  }

  lemma JoinThird(b1: Byte, b2: Byte)
    ensures Or(Sextet2(b1, b2) * 64, Sextet3(b2)) % 256 == b2
  {
    var x: nat, y: nat := Sextet2(b1, b2), Sextet3(b2);
    OrAdds64(x, y);
    ThirdByte(Or(64 * x, y), b1, b2);
  }

  lemma FirstIsRestored(t: seq<Byte>, e: string, i: nat, b0: Byte, b1: Byte)
    requires IsTable(t, 64) && i + 1 < |e| && e[i] == Letter(Sextet0(b0)) && e[i + 1] == Letter(Sextet1(b0, b1))
    ensures Or(ValueAt(t, e, i) * 4, ValueAt(t, e, i + 1) / 16) % 256 == b0
  {
    ValueOfLetter(t, e, i, Sextet0(b0));
    ValueOfLetter(t, e, i + 1, Sextet1(b0, b1));
    JoinFirst(b0, b1);
  }

  lemma SecondIsRestored(t: seq<Byte>, e: string, i: nat, b0: Byte, b1: Byte, b2: Byte)
    requires IsTable(t, 64) && i + 1 < |e| && e[i] == Letter(Sextet1(b0, b1)) && e[i + 1] == Letter(Sextet2(b1, b2))
    ensures Or(ValueAt(t, e, i) * 16, ValueAt(t, e, i + 1) / 4) % 256 == b1
  {
    ValueOfLetter(t, e, i, Sextet1(b0, b1));
    ValueOfLetter(t, e, i + 1, Sextet2(b1, b2));
    JoinSecond(b0, b1, b2);
  }

  lemma ThirdIsRestored(t: seq<Byte>, e: string, i: nat, b1: Byte, b2: Byte)
    requires IsTable(t, 64) && i + 1 < |e| && e[i] == Letter(Sextet2(b1, b2)) && e[i + 1] == Letter(Sextet3(b2))
    ensures Or(ValueAt(t, e, i) * 64, ValueAt(t, e, i + 1)) % 256 == b2
  {
    ValueOfLetter(t, e, i, Sextet2(b1, b2));
    ValueOfLetter(t, e, i + 1, Sextet3(b2));
    JoinThird(b1, b2);
  }

  lemma GroupIsRestored(t: seq<Byte>, e: string, bs: seq<Byte>, q: nat, r: nat)
    requires IsTable(t, 64) && r < 3 && 3 * q + r < |bs| && HasGroup(e, bs, q)
    ensures GroupByte(t, e, q, r) == bs[3 * q + r]
  {
    var b0, b1, b2 := At(bs, 3 * q), At(bs, 3 * q + 1), At(bs, 3 * q + 2);
    if r == 0 {
      FirstIsRestored(t, e, 4 * q, b0, b1);
    } else if r == 1 {
      SecondIsRestored(t, e, 4 * q + 1, b0, b1, b2);
    } else {
      ThirdIsRestored(t, e, 4 * q + 2, b1, b2);
    }
  }

  lemma ByteIsRestored(t: seq<Byte>, bs: seq<Byte>, k: nat)
    requires IsTable(t, 64) && k < |bs|
    ensures ByteAt(t, Encode(bs), k) == bs[k]
  {
    var q, r := k / 3, k % 3;
    assert k == 3 * q + r;
    EncodedGroup(bs, q);
    GroupIsRestored(t, Encode(bs), bs, q, r);
  }

  /** The decoder inverts the encoding, for every sequence of bytes. */
  method DecodeEncoded(bs: seq<Byte>) returns (bytes: array<Byte>)
    ensures bytes[..] == bs
  {
    ghost var table;
    bytes, table := ToBytes(Encode(bs));
    LengthIsRestored(bs);
    forall k: nat | k < |bs| ensures bytes[k] == bs[k] {
      ByteIsRestored(table, bs, k);
    }
  }
}