/** Text in JUnit reports: `escapeXml` of scripts/runner.node.ts writes it, `unescapeXml` of
    scripts/buildkite.ts reads it. Both are chains of replacements of the whole string. */
module XmlText {

  /** A string as the sequence of its code units. */
  type Text = seq<int>

  function Units(s: string): (t: Text)
    ensures |t| == |s| && forall i :: 0 <= i < |s| ==> t[i] == s[i] as int
  {
    seq(|s|, i requires 0 <= i < |s| => s[i] as int)
  }

  const AMP := '&' as int
  const LT := '<' as int
  const GT := '>' as int
  const QUOT := '"' as int
  const APOS := '\'' as int

  /** `s.replace(/pattern/g, replacement)` for a literal pattern. */
  function ReplaceAll(s: Text, pattern: Text, replacement: Text): Text
    requires pattern != []
    decreases |s|
  {
    if s == [] then []
    else if pattern <= s then replacement + ReplaceAll(s[|pattern|..], pattern, replacement)
    else [s[0]] + ReplaceAll(s[1..], pattern, replacement)
  }

  function EscapeXml(s: Text): Text {
    var s1 := ReplaceAll(s, [AMP], Units("&amp;"));
    var s2 := ReplaceAll(s1, [LT], Units("&lt;"));
    var s3 := ReplaceAll(s2, [GT], Units("&gt;"));
    var s4 := ReplaceAll(s3, [QUOT], Units("&quot;"));
    ReplaceAll(s4, [APOS], Units("&apos;"))
  }

  predicate IsDigit(u: int) {
    '0' as int <= u <= '9' as int
  }

  /** How many digits `s` begins with. */
  function DigitCount(s: Text): (n: nat)
    ensures n <= |s|
  {
    if s != [] && IsDigit(s[0]) then 1 + DigitCount(s[1..]) else 0
  }

  function Number(digits: Text): int {
    if digits == [] then 0 else 10 * Number(digits[..|digits| - 1]) + (digits[|digits| - 1] - '0' as int)
  }

  /** The length of a match of `&#(\d+);` at the start of `s`, or 0. */
  function NumericMatch(s: Text): (n: nat)
    ensures n <= |s|
  {
    if Units("&#") <= s then
      var digits := DigitCount(s[2..]);
      if digits > 0 && 2 + digits < |s| && s[2 + digits] == ';' as int then digits + 3 else 0
    else 0
  }

  /** `s.replace(/&#(\d+);/g, (_, code) => String.fromCharCode(Number(code)))` */
  function ReplaceNumeric(s: Text): Text
    decreases |s|
  {
    if s == [] then []
    else
      var n := NumericMatch(s);
      if n > 0 then [Number(s[2..n - 1]) % 0x10000] + ReplaceNumeric(s[n..])
      else [s[0]] + ReplaceNumeric(s[1..])
  }

  function UnescapeXml(s: Text): Text {
    var s1 := ReplaceNumeric(s);
    var s2 := ReplaceAll(s1, Units("&quot;"), [QUOT]);
    var s3 := ReplaceAll(s2, Units("&apos;"), [APOS]);
    var s4 := ReplaceAll(s3, Units("&lt;"), [LT]);
    var s5 := ReplaceAll(s4, Units("&gt;"), [GT]);
    ReplaceAll(s5, Units("&amp;"), [AMP])
  }

  // ---------- escaping works unit by unit ----------

  /** The predefined entity of a unit (section 4.6 of XML 1.0). */
  function Entity(u: int): Text
    requires u in SPECIAL
  {
    if u == AMP then Units("&amp;")
    else if u == LT then Units("&lt;")
    else if u == GT then Units("&gt;")
    else if u == QUOT then Units("&quot;")
    else Units("&apos;")
  }

  const SPECIAL := {AMP, LT, GT, QUOT, APOS}

  /** `s` with entities for the special units that are not in `plain`. */
  function Escaped(s: Text, plain: set<int>): Text {
    if s == [] then []
    else (if s[0] in SPECIAL && s[0] !in plain then Entity(s[0]) else [s[0]]) + Escaped(s[1..], plain)
  }

  lemma {:induction false} ReplaceUnitAppend(s: Text, t: Text, u: int, r: Text)
    ensures ReplaceAll(s + t, [u], r) == ReplaceAll(s, [u], r) + ReplaceAll(t, [u], r)
  {
    if s == [] {
      assert s + t == t;
    } else {
      assert (s + t)[1..] == s[1..] + t;
      ReplaceUnitAppend(s[1..], t, u, r);
      assert [u] <= s + t <==> [u] <= s;
    }
  }

  lemma EscapeAppend(s: Text, t: Text)
    ensures EscapeXml(s + t) == EscapeXml(s) + EscapeXml(t)
  {
    var (amp, lt, gt, quot, apos) := (Units("&amp;"), Units("&lt;"), Units("&gt;"), Units("&quot;"), Units("&apos;"));
    ReplaceUnitAppend(s, t, AMP, amp);
    var (s1, t1) := (ReplaceAll(s, [AMP], amp), ReplaceAll(t, [AMP], amp));
    ReplaceUnitAppend(s1, t1, LT, lt);
    var (s2, t2) := (ReplaceAll(s1, [LT], lt), ReplaceAll(t1, [LT], lt));
    ReplaceUnitAppend(s2, t2, GT, gt);
    var (s3, t3) := (ReplaceAll(s2, [GT], gt), ReplaceAll(t2, [GT], gt));
    ReplaceUnitAppend(s3, t3, QUOT, quot);
    ReplaceUnitAppend(ReplaceAll(s3, [QUOT], quot), ReplaceAll(t3, [QUOT], quot), APOS, apos);
  }

  lemma {:induction false} NothingToReplace(s: Text, u: int, r: Text)
    requires u !in s
    ensures ReplaceAll(s, [u], r) == s
  {
    if s != [] {
      assert s[0] in s && s == [s[0]] + s[1..];
      NothingToReplace(s[1..], u, r);
    }
  }

  lemma ReplaceOne(u: int, r: Text)
    ensures ReplaceAll([u], [u], r) == r
  {
    assert [u][1..] == [];
    assert r + [] == r;
  }

  lemma EntityUnits(u: int)
    requires u in SPECIAL
    ensures LT !in Entity(u) && GT !in Entity(u) && QUOT !in Entity(u) && APOS !in Entity(u)
    ensures |Entity(u)| >= 4 && Entity(u)[0] == AMP && AMP !in Entity(u)[1..] && Entity(u)[1] != '#' as int
  {}

  lemma OnePass(u: int, v: int, x: Text)
    requires v in SPECIAL && x == (if u == v then [u] else x) && (u != v ==> v !in x)
    ensures ReplaceAll(x, [v], Entity(v)) == if u == v then Entity(v) else x
  {
    if u == v { ReplaceOne(u, Entity(v)); } else { NothingToReplace(x, v, Entity(v)); }
  }

  /** The passes turn a unit into its entity; in particular no later pass sees the entity's own units. */
  lemma EscapeUnit(u: int)
    ensures EscapeXml([u]) == if u in SPECIAL then Entity(u) else [u]
  {
    if u in SPECIAL { EntityUnits(u); }
    var x0 := [u];
    OnePass(u, AMP, x0);
    var x1 := if u == AMP then Entity(AMP) else x0;
    OnePass(u, LT, x1);
    var x2 := if u == LT then Entity(LT) else x1;
    OnePass(u, GT, x2);
    var x3 := if u == GT then Entity(GT) else x2;
    OnePass(u, QUOT, x3);
    OnePass(u, APOS, if u == QUOT then Entity(QUOT) else x3);
  }

  lemma {:induction false} EscapeIsEscaped(s: Text)
    ensures EscapeXml(s) == Escaped(s, {})
  {
    if s != [] {
      assert s == [s[0]] + s[1..];
      EscapeAppend([s[0]], s[1..]);
      EscapeUnit(s[0]);
      EscapeIsEscaped(s[1..]);
    }
  }

  // ---------- a pass decodes one entity ----------

  lemma {:induction false} PassSkips(a: Text, b: Text, pattern: Text, r: Text)
    requires pattern != [] && pattern[0] == AMP && AMP !in a
    ensures ReplaceAll(a + b, pattern, r) == a + ReplaceAll(b, pattern, r)
  {
    if a == [] {
      assert a + b == b;
    } else {
      assert (a + b)[1..] == a[1..] + b;
      assert (a + b)[0] == a[0] != AMP;
      PassSkips(a[1..], b, pattern, r);
    }
  }

  lemma PassDecodes(u: int, b: Text)
    requires u in SPECIAL
    ensures ReplaceAll(Entity(u) + b, Entity(u), [u]) == [u] + ReplaceAll(b, Entity(u), [u])
  {
    assert (Entity(u) + b)[|Entity(u)|..] == b;
  }

  /** Another entity stays: the two differ before either ends, and an entity has only one ampersand. */
  lemma PassKeeps(u: int, w: int, b: Text)
    requires u in SPECIAL && w in SPECIAL && u != w
    ensures ReplaceAll(Entity(w) + b, Entity(u), [u]) == Entity(w) + ReplaceAll(b, Entity(u), [u])
  {
    EntityUnits(u);
    EntityUnits(w);
    EntitiesDiffer(u, w, b);
    KeepFirst(Entity(w), b, Entity(u), [u]);
  }

  lemma KeepFirst(e: Text, b: Text, pattern: Text, r: Text)
    requires e != [] && pattern != [] && pattern[0] == AMP && AMP !in e[1..] && !(pattern <= e + b)
    ensures ReplaceAll(e + b, pattern, r) == e + ReplaceAll(b, pattern, r)
  {
    FirstApart(e, b);
    PassSkips(e[1..], b, pattern, r);
    FirstApart(e, ReplaceAll(b, pattern, r));
  }

  lemma EntitiesDiffer(u: int, w: int, b: Text)
    requires u in SPECIAL && w in SPECIAL && u != w
    ensures !(Entity(u) <= Entity(w) + b)
  {
    var (x, y) := (Entity(u), Entity(w) + b);
    assert y[1] == Entity(w)[1] && y[2] == Entity(w)[2];
    assert x[1] != y[1] || x[2] != y[2];
  }

  lemma {:induction false} PassMovesOn(s: Text, plain: set<int>, u: int)
    requires u in SPECIAL && u !in plain && AMP !in plain
    ensures ReplaceAll(Escaped(s, plain), Entity(u), [u]) == Escaped(s, plain + {u})
  {
    if s != [] {
      var rest := Escaped(s[1..], plain);
      PassMovesOn(s[1..], plain, u);
      if s[0] in SPECIAL && s[0] !in plain {
        if s[0] == u { PassDecodes(u, rest); } else { PassKeeps(u, s[0], rest); }
      } else {
        PassSkips([s[0]], rest, Entity(u), [u]);
      }
    }
  }

  lemma {:induction false} NumericSkips(a: Text, b: Text)
    requires AMP !in a
    ensures ReplaceNumeric(a + b) == a + ReplaceNumeric(b)
  {
    if a == [] {
      assert a + b == b;
    } else {
      assert (a + b)[1..] == a[1..] + b;
      assert (a + b)[0] == a[0] != AMP;
      NumericSkips(a[1..], b);
    }
  }

  lemma NumericKeepsEntity(e: Text, b: Text)
    requires |e| >= 2 && e[1] != '#' as int && AMP !in e[1..]
    ensures ReplaceNumeric(e + b) == e + ReplaceNumeric(b)
  {
    NoNumericMatch(e, b);
    FirstApart(e, b);
    NumericSkips(e[1..], b);
    FirstApart(e, ReplaceNumeric(b));
  }

  lemma NoNumericMatch(e: Text, b: Text)
    requires |e| >= 2 && e[1] != '#' as int
    ensures NumericMatch(e + b) == 0
  {
    assert (e + b)[1] == e[1];
  }

  lemma FirstApart(e: Text, b: Text)
    requires e != []
    ensures e + b == [e[0]] + (e[1..] + b) && (e + b)[0] == e[0] && (e + b)[1..] == e[1..] + b
  {}

  /** No numeric reference is found: after an ampersand comes the name of an entity. */
  lemma {:induction false} NumericKeeps(s: Text)
    ensures ReplaceNumeric(Escaped(s, {})) == Escaped(s, {})
  {
    if s != [] {
      var rest := Escaped(s[1..], {});
      NumericKeeps(s[1..]);
      if s[0] in SPECIAL {
        EntityUnits(s[0]);
        NumericKeepsEntity(Entity(s[0]), rest);
      } else {
        NumericSkips([s[0]], rest);
      }
    }
  }

  lemma {:induction false} AllPlain(s: Text, plain: set<int>)
    requires SPECIAL <= plain
    ensures Escaped(s, plain) == s
  {
    if s != [] { AllPlain(s[1..], plain); }
  }

  /** What was escaped is read back, for every string. */
  lemma UnescapeInvertsEscape(s: Text)
    ensures UnescapeXml(EscapeXml(s)) == s
  {
    EscapeIsEscaped(s);
    NumericKeeps(s);
    PassMovesOn(s, {}, QUOT);
    PassMovesOn(s, {} + {QUOT}, APOS);
    PassMovesOn(s, {} + {QUOT} + {APOS}, LT);
    PassMovesOn(s, {} + {QUOT} + {APOS} + {LT}, GT);
    PassMovesOn(s, {} + {QUOT} + {APOS} + {LT} + {GT}, AMP);
    AllPlain(s, {} + {QUOT} + {APOS} + {LT} + {GT} + {AMP});
  }

  lemma {:induction false} EscapedHasNo(s: Text, u: int)
    requires u in SPECIAL && u != AMP
    ensures u !in Escaped(s, {})
  {
    if s != [] {
      EscapedHasNo(s[1..], u);
      if s[0] in SPECIAL { EntityUnits(s[0]); }
    }
  }

  /** Escaped text can stand in an attribute: it has no markup delimiter and no quote. */
  lemma EscapedIsInert(s: Text)
    ensures LT !in EscapeXml(s) && GT !in EscapeXml(s) && QUOT !in EscapeXml(s) && APOS !in EscapeXml(s)
  {
    EscapeIsEscaped(s);
    EscapedHasNo(s, LT);
    EscapedHasNo(s, GT);
    EscapedHasNo(s, QUOT);
    EscapedHasNo(s, APOS);
  }

  // ---------- what the entities and the references stand for ----------

  /** The names of the five entities. */
  lemma EntitiesAre()
    ensures EscapeXml(['&' as int]) == Units("&amp;") && EscapeXml(['<' as int]) == Units("&lt;")
    ensures EscapeXml(['>' as int]) == Units("&gt;") && EscapeXml(['"' as int]) == Units("&quot;")
    ensures EscapeXml(['\'' as int]) == Units("&apos;")
  {
    EscapeUnit(AMP);
    EscapeUnit(LT);
    EscapeUnit(GT);
    EscapeUnit(QUOT);
    EscapeUnit(APOS);
  }

  /** `n` in decimal. */
  function Decimal(n: nat): (r: Text)
    ensures r != [] && forall i :: 0 <= i < |r| ==> IsDigit(r[i])
  {
    if n < 10 then ['0' as int + n] else Decimal(n / 10) + ['0' as int + n % 10]
  }

  lemma {:induction false} NumberOfDecimal(n: nat)
    ensures Number(Decimal(n)) == n
  {
    if n < 10 {
      assert Decimal(n)[..0] == [];
    } else {
      NumberOfDecimal(n / 10);
      assert Decimal(n)[..|Decimal(n)| - 1] == Decimal(n / 10);
    }
  }

  lemma {:induction false} CountDigits(digits: Text, rest: Text)
    requires (forall i :: 0 <= i < |digits| ==> IsDigit(digits[i])) && (rest == [] || !IsDigit(rest[0]))
    ensures DigitCount(digits + rest) == |digits|
  {
    if digits == [] {
      assert digits + rest == rest;
    } else {
      assert (digits + rest)[1..] == digits[1..] + rest;
      CountDigits(digits[1..], rest);
    }
  }

  /** `&#n;` */
  function Reference(n: nat): Text {
    Units("&#") + Decimal(n) + [';' as int]
  }

  lemma ReferenceParts(n: nat, rest: Text)
    ensures var s := Reference(n) + rest; var d := Decimal(n);
            && Units("&#") <= s && s != [] && s[2..] == d + ([';' as int] + rest) && |s| > 2 + |d|
            && s[2 + |d|] == ';' as int && s[2..2 + |d|] == d && s[|d| + 3..] == rest
  {}

  /** Anywhere in a text, a numeric reference is the code unit of that number (modulo 2^16). */
  lemma NumericIs(n: nat, rest: Text)
    ensures ReplaceNumeric(Reference(n) + rest) == [n % 0x10000] + ReplaceNumeric(rest)
  {
    var s, d := Reference(n) + rest, Decimal(n);
    ReferenceParts(n, rest);
    CountDigits(d, [';' as int] + rest);
    NumberOfDecimal(n);
    assert NumericMatch(s) == |d| + 3;
  }

  lemma TooShort(u: int, pattern: Text, r: Text)
    requires |pattern| > 1
    ensures ReplaceAll([u], pattern, r) == [u]
  {
    assert [u][1..] == [] && [u] + [] == [u];
  }

  /** `&#n;` on its own is read as the code unit n. */
  lemma NumericIsRead(n: nat)
    requires n < 0x10000
    ensures UnescapeXml(Reference(n)) == [n]
  {
    NumericIs(n, []);
    assert Reference(n) + [] == Reference(n) && [n] + [] == [n];
    TooShort(n, Units("&quot;"), [QUOT]);
    TooShort(n, Units("&apos;"), [APOS]);
    TooShort(n, Units("&lt;"), [LT]);
    TooShort(n, Units("&gt;"), [GT]);
    TooShort(n, Units("&amp;"), [AMP]);
  }
}
