/** Python's json.dumps(value, sort_keys=True) on the values the services hash:
    null, booleans, integers, strings and nested dictionaries.

    A dictionary is kept in insertion order, as Python keeps it; Meaning forgets
    that order. The main result, DumpsIsCanonical, says that two values have the
    same serialisation exactly when they mean the same. Characters are Unicode
    scalar values. */
module CanonicalJson {
  import opened Basics

  datatype Json = Null | Bool(b: bool) | Int(n: int) | Str(s: string) | Obj(members: Members)

  datatype Members = Empty | Member(key: string, value: Json, rest: Members)

  // ------------------------------------------------------------------ writing

  function Digit(n: int): char
    requires 0 <= n < 10
  {
    "0123456789"[n]
  }

  function Digits(n: nat): string {
    if n < 10 then [Digit(n)] else Digits(n / 10) + [Digit(n % 10)]
  }

  function Hex(n: int): char
    requires 0 <= n < 16
  {
    "0123456789abcdef"[n]
  }

  /** A \uXXXX escape of one UTF-16 code unit. */
  function Unit(u: int): string
    requires 0 <= u < 0x10000
  {
    ['\\', 'u', Hex(u / 0x1000), Hex(u / 0x100 % 16), Hex(u / 16 % 16), Hex(u % 16)]
  }

  /** The letter of a two-character escape, or a blank if there is none. */
  function ShortEscape(c: char): char {
    if c == '\"' then '\"'
    else if c == '\\' then '\\'
    else if c == '\n' then 'n'
    else if c == '\r' then 'r'
    else if c == '\t' then 't'
    else if c == '\U{000C}' then 'f'
    else if c == '\U{0008}' then 'b'
    else ' '
  }

  /** The surrogate pair of the character 0x10000 + v. */
  function Pair(v: int): string
    requires 0 <= v < 0x100000
  {
    Unit(0xD800 + v / 0x400) + Unit(0xDC00 + v % 0x400)
  }

  /** One character under ensure_ascii: the short escapes, printable ASCII as
      it is, and code units for everything else (section 7 of RFC 8259). */
  function EscapeChar(c: char): string {
    if ShortEscape(c) != ' ' then ['\\', ShortEscape(c)]
    else if ' ' <= c <= '~' then [c]
    else if c as int < 0x10000 then Unit(c as int)
    else Pair(c as int - 0x10000)
  }

  function Escape(s: string): string {
    if s == [] then [] else EscapeChar(s[0]) + Escape(s[1..])
  }

  function Quote(s: string): string {
    ['\"'] + (Escape(s) + ['\"'])
  }

  /** json.dumps without sort_keys: members in the order they stand. */
  function Write(j: Json): string {
    match j
    case Null => "null"
    case Bool(b) => if b then "true" else "false"
    case Int(n) => if n < 0 then ['-'] + Digits(-n) else Digits(n)
    case Str(s) => Quote(s)
    case Obj(Empty) => "{}"
    case Obj(ms) => ['{'] + (WriteMembers(ms) + ['}'])
  }

  function WriteMembers(ms: Members): string {
    match ms
    case Empty => ""
    case Member(k, v, Empty) => Quote(k) + (": " + Write(v))
    case Member(k, v, rest) => Quote(k) + (": " + (Write(v) + (", " + WriteMembers(rest))))
  }

  /** Code point order of strings, the order Python sorts keys in. */
  predicate Less(a: string, b: string) {
    b != [] && (a == [] || a[0] < b[0] || (a[0] == b[0] && Less(a[1..], b[1..])))
  }

  function Insert(k: string, v: Json, ms: Members): Members {
    if ms.Empty? || Less(k, ms.key) then Member(k, v, ms)
    else Member(ms.key, ms.value, Insert(k, v, ms.rest))
  }

  /** The value with the members of every dictionary sorted by key. */
  function Normal(j: Json): Json {
    if j.Obj? then Obj(NormalMembers(j.members)) else j
  }

  function NormalMembers(ms: Members): Members {
    if ms.Empty? then Empty else Insert(ms.key, Normal(ms.value), NormalMembers(ms.rest))
  }

  function Dumps(j: Json): string {
    Write(Normal(j))
  }

  // ------------------------------------------------------------------ meaning

  /** A value with dictionaries as maps: two values with the same meaning are
      equal in type and value, in whatever order their keys were inserted. */
  datatype Value = NullV | BoolV(b: bool) | IntV(n: int) | StrV(s: string) | DictV(m: map<string, Value>)

  function Meaning(j: Json): Value {
    match j
    case Null => NullV
    case Bool(b) => BoolV(b)
    case Int(n) => IntV(n)
    case Str(s) => StrV(s)
    case Obj(ms) => DictV(MeaningMembers(ms))
  }

  function MeaningMembers(ms: Members): map<string, Value> {
    if ms.Empty? then map[] else MeaningMembers(ms.rest)[ms.key := Meaning(ms.value)]
  }

  function Keys(ms: Members): set<string> {
    if ms.Empty? then {} else {ms.key} + Keys(ms.rest)
  }

  /** A Python dictionary holds a key once, at every level. */
  predicate UniqueKeys(j: Json) {
    j.Obj? ==> UniqueMembers(j.members)
  }

  predicate UniqueMembers(ms: Members) {
    ms.Member? ==> ms.key !in Keys(ms.rest) && UniqueKeys(ms.value) && UniqueMembers(ms.rest)
  }

  // ------------------------------------------------------- unique readability

  lemma SplitAt(x: string, t: string, y: string, u: string)
    requires x + t == y + u && |x| == |y|
    ensures x == y && t == u
  {
    assert x == (x + t)[..|x|] && y == (y + u)[..|y|];
    assert t == (x + t)[|x|..] && u == (y + u)[|y|..];
  }

  lemma HexInjective(a: int, b: int)
    requires 0 <= a < 16 && 0 <= b < 16 && Hex(a) == Hex(b)
    ensures a == b
  {
  }

  lemma HexParts(u: int)
    requires 0 <= u < 0x10000
    ensures u == 0x1000 * (u / 0x1000) + 0x100 * (u / 0x100 % 16) + 16 * (u / 16 % 16) + u % 16
  {
    var q, r := u / 16, u / 0x100;
    assert u / 0x100 == q / 16;
    assert u / 0x1000 == r / 16;
    assert q == 16 * r + q % 16;
    assert r == 16 * (r / 16) + r % 16;
  }

  lemma UnitInjective(a: int, b: int)
    requires 0 <= a < 0x10000 && 0 <= b < 0x10000 && Unit(a) == Unit(b)
    ensures a == b
  {
    assert forall i | 2 <= i < 6 :: Unit(a)[i] == Unit(b)[i];
    HexInjective(a / 0x1000, b / 0x1000);
    HexInjective(a / 0x100 % 16, b / 0x100 % 16);
    HexInjective(a / 16 % 16, b / 16 % 16);
    HexInjective(a % 16, b % 16);
    HexParts(a);
    HexParts(b);
  }

  lemma PairInjective(v: int, w: int)
    requires 0 <= v < 0x100000 && 0 <= w < 0x100000 && Pair(v) == Pair(w)
    ensures v == w
  {
    SplitAt(Unit(0xD800 + v / 0x400), Unit(0xDC00 + v % 0x400),
            Unit(0xD800 + w / 0x400), Unit(0xDC00 + w % 0x400));
    UnitInjective(0xD800 + v / 0x400, 0xD800 + w / 0x400);
    UnitInjective(0xDC00 + v % 0x400, 0xDC00 + w % 0x400);
  }

  /** The four lengths an escape can have, and what it is in each case. */
  lemma EscapeCharShape(c: char)
    ensures EscapeChar(c)[0] != '\"'
    ensures match |EscapeChar(c)| {
      case 1 => EscapeChar(c) == [c] && c != '\\'
      case 2 => EscapeChar(c) == ['\\', ShortEscape(c)] && ShortEscape(c) !in {' ', 'u'}
      case 6 => c as int < 0x10000 && !(0xD800 <= c as int < 0xE000) && EscapeChar(c) == Unit(c as int)
      case 12 => c as int >= 0x10000 && EscapeChar(c) == Pair(c as int - 0x10000)
      case _ => false
    }
  {
  }

  lemma UnitIsNotHighSurrogate(u: int, v: int)
    requires 0 <= u < 0x10000 && !(0xD800 <= u < 0xE000) && 0 <= v < 0x100000
    ensures Unit(u) != Pair(v)[..6]
  {
    var high := 0xD800 + v / 0x400;
    assert Pair(v)[..6] == Unit(high);
    if Unit(u) == Unit(high) {
      UnitInjective(u, high);
    }
  }

  lemma EscapeCharInjective(c: char, d: char)
    requires EscapeChar(c) == EscapeChar(d)
    ensures c == d
  {
    EscapeCharShape(c);
    EscapeCharShape(d);
    if |EscapeChar(c)| == 6 {
      UnitInjective(c as int, d as int);
    } else if |EscapeChar(c)| == 12 {
      PairInjective(c as int - 0x10000, d as int - 0x10000);
    } else if |EscapeChar(c)| == 2 {
      assert EscapeChar(c)[1] == EscapeChar(d)[1];
    }
  }

  /** A scalar value is never a lone surrogate, so one code unit cannot be
      mistaken for the first of two. */
  lemma UnitIsNoPrefixOfPair(c: char, d: char)
    requires |EscapeChar(c)| == 6 && |EscapeChar(d)| == 12
    ensures !(EscapeChar(c) <= EscapeChar(d))
  {
    EscapeCharShape(c);
    EscapeCharShape(d);
    UnitIsNotHighSurrogate(c as int, d as int - 0x10000);
  }

  /** What a character starts with tells the short escapes from code units. */
  lemma ShortIsNoPrefix(c: char, d: char)
    requires |EscapeChar(c)| < |EscapeChar(d)| && |EscapeChar(c)| <= 2
    ensures !(EscapeChar(c) <= EscapeChar(d))
  {
    EscapeCharShape(c);
    EscapeCharShape(d);
    assert EscapeChar(d)[0] == '\\';
    if |EscapeChar(d)| > 2 {
      assert EscapeChar(d)[1] == 'u';
    }
  }

  /** No escape is a proper prefix of another. */
  lemma EscapeCharPrefix(c: char, d: char)
    requires EscapeChar(c) <= EscapeChar(d)
    ensures c == d
  {
    EscapeCharShape(c);
    EscapeCharShape(d);
    if |EscapeChar(c)| == |EscapeChar(d)| {
      EscapeCharInjective(c, d);
    } else if |EscapeChar(c)| == 6 {
      UnitIsNoPrefixOfPair(c, d);
    } else {
      ShortIsNoPrefix(c, d);
    }
  }

  lemma EscapeCharPrefixFree(c: char, t: string, d: char, u: string)
    requires |EscapeChar(c)| <= |EscapeChar(d)|
    requires EscapeChar(c) + t == EscapeChar(d) + u
    ensures c == d && t == u
  {
    var x, y := EscapeChar(c), EscapeChar(d);
    assert x == (y + u)[..|x|] == y[..|x|];
    EscapeCharPrefix(c, d);
    SplitAt(x, t, y, u);
  }

  lemma {:induction false} QuoteUnique(s: string, t: string, z: string, u: string)
    requires Quote(s) + t == Quote(z) + u
    ensures s == z && t == u
  {
    assert Quote(s) + t == ['\"'] + (Escape(s) + (['\"'] + t));
    assert Quote(z) + u == ['\"'] + (Escape(z) + (['\"'] + u));
    SplitAt(['\"'], Escape(s) + (['\"'] + t), ['\"'], Escape(z) + (['\"'] + u));
    EscapeUnique(s, t, z, u);
  }

  lemma EscapeHead(s: string, t: string)
    ensures (Escape(s) + (['\"'] + t))[0] == '\"' <==> s == []
  {
    if s != [] {
      EscapeCharShape(s[0]);
    }
  }

  lemma {:induction false} EscapeUnique(s: string, t: string, z: string, u: string)
    requires Escape(s) + (['\"'] + t) == Escape(z) + (['\"'] + u)
    ensures s == z && t == u
  {
    EscapeHead(s, t);
    EscapeHead(z, u);
    if s == [] {
      assert Escape(s) + (['\"'] + t) == ['\"'] + t && Escape(z) + (['\"'] + u) == ['\"'] + u;
      SplitAt(['\"'], t, ['\"'], u);
    } else {
      EscapeStep(s, t);
      EscapeStep(z, u);
      var a, b := Escape(s[1..]) + (['\"'] + t), Escape(z[1..]) + (['\"'] + u);
      if |EscapeChar(s[0])| <= |EscapeChar(z[0])| {
        EscapeCharPrefixFree(s[0], a, z[0], b);
      } else {
        EscapeCharPrefixFree(z[0], b, s[0], a);
      }
      EscapeUnique(s[1..], t, z[1..], u);
    }
  }

  lemma EscapeStep(s: string, t: string)
    requires s != []
    ensures Escape(s) + (['\"'] + t) == EscapeChar(s[0]) + (Escape(s[1..]) + (['\"'] + t))
  {
    var x, y, z := EscapeChar(s[0]), Escape(s[1..]), ['\"'] + t;
    assert (x + y) + z == x + (y + z);
  }

  predicate IsDigit(c: char) {
    '0' <= c <= '9'
  }

  /** What may follow a value inside a serialisation. */
  predicate Stops(t: string) {
    t != [] ==> t[0] == ',' || t[0] == '}'
  }

  lemma DigitsShape(n: nat)
    ensures |Digits(n)| > 0 && forall c | c in Digits(n) :: IsDigit(c)
  {
  }

  lemma {:induction false} DigitsInjective(a: nat, b: nat)
    requires Digits(a) == Digits(b)
    ensures a == b
  {
    DigitsShape(a / 10);
    DigitsShape(b / 10);
    if a >= 10 && b >= 10 {
      var x, y := Digits(a / 10), Digits(b / 10);
      SplitAt(x, [Digit(a % 10)], y, [Digit(b % 10)]);
      DigitsInjective(a / 10, b / 10);
    }
  }

  lemma DigitsEnd(x: string, t: string, y: string, u: string)
    requires Stops(t) && |x| < |y| && forall c | c in y :: IsDigit(c)
    ensures x + t != y + u
  {
    if |x| < |x + t| {
      assert (x + t)[|x|] == t[0];
    }
    assert (y + u)[|x|] == y[|x|] && y[|x|] in y;
  }

  lemma DigitsUnique(a: nat, t: string, b: nat, u: string)
    requires Stops(t) && Stops(u) && Digits(a) + t == Digits(b) + u
    ensures a == b && t == u
  {
    var x, y := Digits(a), Digits(b);
    DigitsShape(a);
    DigitsShape(b);
    assert |x| == |y| by {
      if |x| < |y| { DigitsEnd(x, t, y, u); }
      if |y| < |x| { DigitsEnd(y, u, x, t); }
    }
    SplitAt(x, t, y, u);
    DigitsInjective(a, b);
  }

  /** The first character of a serialisation tells the kind of value. */
  function Kind(c: char): int {
    if IsDigit(c) then 0 else if c == '-' then 1 else if c == 'n' then 2
    else if c == 't' then 3 else if c == 'f' then 4 else if c == '\"' then 5 else 6
  }

  lemma WriteShape(j: Json)
    ensures |Write(j)| > 0
    ensures Kind(Write(j)[0]) == match j {
      case Null => 2
      case Bool(b) => if b then 3 else 4
      case Int(n) => if n < 0 then 1 else 0
      case Str(s) => 5
      case Obj(ms) => 6
    }
  {
    if j.Int? {
      DigitsShape(if j.n < 0 then -j.n else j.n);
    }
  }

  lemma SameKind(a: Json, t: string, b: Json, u: string)
    requires Write(a) + t == Write(b) + u
    ensures a.Null? == b.Null? && a.Int? == b.Int? && a.Str? == b.Str? && a.Obj? == b.Obj?
    ensures a.Bool? ==> b == a
    ensures a.Int? ==> (a.n < 0 <==> b.n < 0)
  {
    WriteShape(a);
    WriteShape(b);
    assert Write(a)[0] == (Write(a) + t)[0] == (Write(b) + u)[0] == Write(b)[0];
  }

  lemma AfterMinus(x: string, t: string, y: string, u: string)
    requires (['-'] + x) + t == (['-'] + y) + u
    ensures x + t == y + u
  {
    assert (['-'] + x) + t == ['-'] + (x + t) && (['-'] + y) + u == ['-'] + (y + u);
    SplitAt(['-'], x + t, ['-'], y + u);
  }

  lemma IntUnique(m: int, t: string, n: int, u: string)
    requires Stops(t) && Stops(u) && Write(Int(m)) + t == Write(Int(n)) + u && (m < 0 <==> n < 0)
    ensures m == n && t == u
  {
    if m < 0 {
      AfterMinus(Digits(-m), t, Digits(-n), u);
      DigitsUnique(-m, t, -n, u);
    } else {
      DigitsUnique(m, t, n, u);
    }
  }

  /** A serialisation followed by what may follow it can be read in one way only. */
  lemma {:induction false} WriteUnique(a: Json, t: string, b: Json, u: string)
    requires Stops(t) && Stops(u) && Write(a) + t == Write(b) + u
    ensures a == b && t == u
    decreases a
  {
    SameKind(a, t, b, u);
    match a
    case Null => SplitAt(Write(a), t, Write(b), u);
    case Bool(_) => SplitAt(Write(a), t, Write(b), u);
    case Int(m) => IntUnique(m, t, b.n, u);
    case Str(s) => QuoteUnique(s, t, b.s, u);
    case Obj(ms) => ObjUnique(ms, t, b.members, u);
  }

  lemma ObjHead(ms: Members, t: string)
    ensures |Write(Obj(ms)) + t| > 1
    ensures (Write(Obj(ms)) + t)[1] == '}' <==> ms.Empty?
    ensures ms.Member? ==> Write(Obj(ms)) + t == ['{'] + (WriteMembers(ms) + (['}'] + t))
  {
    if ms.Member? {
      var w := WriteMembers(ms);
      assert w[0] == '\"';
      assert (['{'] + (w + ['}'])) + t == ['{'] + (w + (['}'] + t));
    }
  }

  lemma {:induction false} ObjUnique(ms: Members, t: string, ns: Members, u: string)
    requires Stops(t) && Stops(u) && Write(Obj(ms)) + t == Write(Obj(ns)) + u
    ensures ms == ns && t == u
    decreases ms, 1
  {
    ObjHead(ms, t);
    ObjHead(ns, u);
    if ms.Empty? {
      SplitAt("{}", t, "{}", u);
    } else {
      SplitAt(['{'], WriteMembers(ms) + (['}'] + t), ['{'], WriteMembers(ns) + (['}'] + u));
      MembersUnique(ms, t, ns, u);
    }
  }

  lemma {:induction false} MembersUnique(ms: Members, t: string, ns: Members, u: string)
    requires ms.Member? && ns.Member? && Stops(t) && Stops(u)
    requires WriteMembers(ms) + (['}'] + t) == WriteMembers(ns) + (['}'] + u)
    ensures ms == ns && t == u
    decreases ms, 0
  {
    var x, y := AfterValue(ms.rest, t), AfterValue(ns.rest, u);
    AfterKey(ms, t);
    AfterKey(ns, u);
    QuoteUnique(ms.key, ": " + (Write(ms.value) + x), ns.key, ": " + (Write(ns.value) + y));
    SplitAt(": ", Write(ms.value) + x, ": ", Write(ns.value) + y);
    WriteUnique(ms.value, x, ns.value, y);
    assert x[0] == y[0];
    if ms.rest.Empty? {
      SplitAt(['}'], t, ['}'], u);
    } else {
      SplitAt(", ", WriteMembers(ms.rest) + (['}'] + t), ", ", WriteMembers(ns.rest) + (['}'] + u));
      MembersUnique(ms.rest, t, ns.rest, u);
    }
  }

  function AfterValue(rest: Members, t: string): string {
    if rest.Empty? then ['}'] + t else ", " + (WriteMembers(rest) + (['}'] + t))
  }

  lemma AfterKey(ms: Members, t: string)
    requires ms.Member?
    ensures WriteMembers(ms) + (['}'] + t) == Quote(ms.key) + (": " + (Write(ms.value) + AfterValue(ms.rest, t)))
  {
    var q, w, m := Quote(ms.key), Write(ms.value), WriteMembers(ms.rest);
    if ms.rest.Empty? {
      assert (q + (": " + w)) + (['}'] + t) == q + (": " + (w + (['}'] + t)));
    } else {
      assert (q + (": " + (w + (", " + m)))) + (['}'] + t) == q + (": " + (w + (", " + (m + (['}'] + t)))));
    }
  }

  // ---------------------------------------------------------- sorting by key

  lemma {:induction false} LessTrichotomy(a: string, b: string)
    ensures a == b || Less(a, b) || Less(b, a)
    ensures !(Less(a, b) && Less(b, a)) && !Less(a, a)
  {
    if a != [] {
      LessTrichotomy(a[1..], if b == [] then [] else b[1..]);
      if b != [] && a[0] == b[0] && a[1..] == b[1..] {
        assert a == [a[0]] + a[1..] && b == [b[0]] + b[1..];
      }
    }
  }

  lemma {:induction false} LessTransitive(a: string, b: string, c: string)
    requires Less(a, b) && Less(b, c)
    ensures Less(a, c)
  {
    if a != [] && a[0] == b[0] == c[0] {
      LessTransitive(a[1..], b[1..], c[1..]);
    }
  }

  ghost predicate Sorted(ms: Members) {
    ms.Member? ==> (forall k | k in Keys(ms.rest) :: Less(ms.key, k)) && Sorted(ms.rest)
  }

  function Lookup(ms: Members, k: string): Json
    requires k in Keys(ms)
  {
    if ms.key == k then ms.value else Lookup(ms.rest, k)
  }

  lemma {:induction false} InsertKeys(k: string, v: Json, ms: Members)
    ensures Keys(Insert(k, v, ms)) == {k} + Keys(ms)
    ensures k !in Keys(ms) ==> MeaningMembers(Insert(k, v, ms)) == MeaningMembers(ms)[k := Meaning(v)]
  {
    if ms.Member? {
      InsertKeys(k, v, ms.rest);
    }
  }

  lemma {:induction false} InsertSorted(k: string, v: Json, ms: Members)
    requires Sorted(ms) && k !in Keys(ms)
    ensures Sorted(Insert(k, v, ms))
  {
    if ms.Empty? {
    } else if Less(k, ms.key) {
      forall q | q in Keys(ms.rest) ensures Less(k, q) {
        LessTransitive(k, ms.key, q);
      }
    } else {
      LessTrichotomy(k, ms.key);
      InsertSorted(k, v, ms.rest);
      InsertKeys(k, v, ms.rest);
    }
  }

  lemma {:induction false} InsertLookup(k: string, v: Json, ms: Members, q: string)
    requires k !in Keys(ms) && q in {k} + Keys(ms)
    ensures q in Keys(Insert(k, v, ms)) && Lookup(Insert(k, v, ms), q) == if q == k then v else Lookup(ms, q)
  {
    InsertKeys(k, v, ms);
    if ms.Member? && !Less(k, ms.key) && q != ms.key {
      InsertLookup(k, v, ms.rest, q);
    }
  }

  /** Normalising keeps the keys, normalises each value, keeps the meaning and
      leaves the keys in ascending order. */
  lemma {:induction false} NormalMembersCorrect(ms: Members)
    requires UniqueMembers(ms)
    ensures Sorted(NormalMembers(ms)) && Keys(NormalMembers(ms)) == Keys(ms)
    ensures forall k | k in Keys(ms) :: Lookup(NormalMembers(ms), k) == Normal(Lookup(ms, k))
    ensures MeaningMembers(NormalMembers(ms)) == MeaningMembers(ms)
  {
    if ms.Member? {
      NormalMembersCorrect(ms.rest);
      NormalMeaning(ms.value);
      var v, rest := Normal(ms.value), NormalMembers(ms.rest);
      InsertKeys(ms.key, v, rest);
      InsertSorted(ms.key, v, rest);
      forall k | k in Keys(ms) ensures Lookup(NormalMembers(ms), k) == Normal(Lookup(ms, k)) {
        InsertLookup(ms.key, v, rest, k);
      }
    }
  }

  lemma {:induction false} NormalMeaning(j: Json)
    requires UniqueKeys(j)
    ensures Meaning(Normal(j)) == Meaning(j)
  {
    if j.Obj? {
      NormalMembersCorrect(j.members);
    }
  }

  lemma {:induction false} SortedUnique(ms: Members, ns: Members)
    requires Sorted(ms) && Sorted(ns) && Keys(ms) == Keys(ns)
    requires forall k | k in Keys(ms) :: Lookup(ms, k) == Lookup(ns, k)
    ensures ms == ns
  {
    if ms.Member? {
      assert ms.key in Keys(ns);
      assert ns.Member? && ns.key in Keys(ms);
      LessTrichotomy(ms.key, ns.key);
      LessTrichotomy(ms.key, ms.key);
      LessTrichotomy(ns.key, ns.key);
      assert ms.key !in Keys(ms.rest) && ns.key !in Keys(ns.rest);
      assert Keys(ms.rest) == Keys(ms) - {ms.key} && Keys(ns.rest) == Keys(ns) - {ns.key};
      forall k | k in Keys(ms.rest) ensures Lookup(ms.rest, k) == Lookup(ns.rest, k) {
        assert Lookup(ms, k) == Lookup(ns, k);
      }
      SortedUnique(ms.rest, ns.rest);
    }
  }

  lemma {:induction false} MeaningLookup(ms: Members)
    requires UniqueMembers(ms)
    ensures MeaningMembers(ms).Keys == Keys(ms)
    ensures forall k | k in Keys(ms) :: UniqueKeys(Lookup(ms, k)) && MeaningMembers(ms)[k] == Meaning(Lookup(ms, k))
  {
    if ms.Member? {
      MeaningLookup(ms.rest);
    }
  }

  lemma {:induction false} SameMeaningSameNormal(a: Json, b: Json)
    requires UniqueKeys(a) && UniqueKeys(b) && Meaning(a) == Meaning(b)
    ensures Normal(a) == Normal(b)
    decreases a
  {
    if a.Obj? {
      MeaningLookup(a.members);
      MeaningLookup(b.members);
      NormalMembersCorrect(a.members);
      NormalMembersCorrect(b.members);
      assert Keys(a.members) == Keys(b.members);
      SameMembersSameNormal(a.members, a.members, b.members);
      SortedUnique(NormalMembers(a.members), NormalMembers(b.members));
    }
  }

  lemma {:induction false} SameMembersSameNormal(some: Members, ms: Members, ns: Members)
    requires UniqueMembers(ms) && UniqueMembers(ns) && UniqueMembers(some) && Keys(some) <= Keys(ms) <= Keys(ns)
    requires forall k | k in Keys(some) :: Lookup(some, k) == Lookup(ms, k)
    requires forall k | k in Keys(ms) :: UniqueKeys(Lookup(ns, k)) && Meaning(Lookup(ms, k)) == Meaning(Lookup(ns, k))
    ensures forall k | k in Keys(some) :: Normal(Lookup(ms, k)) == Normal(Lookup(ns, k))
    decreases some
  {
    if some.Member? {
      assert Lookup(some, some.key) == some.value;
      SameMeaningSameNormal(some.value, Lookup(ns, some.key));
      forall k | k in Keys(some.rest) ensures Lookup(some.rest, k) == Lookup(ms, k) {
        assert Lookup(some, k) == Lookup(ms, k);
      }
      SameMembersSameNormal(some.rest, ms, ns);
    }
  }

  /** The serialisation determines the value up to the order of members, and
      the order of members does not affect it. */
  lemma DumpsIsCanonical(a: Json, b: Json)
    requires UniqueKeys(a) && UniqueKeys(b)
    ensures Dumps(a) == Dumps(b) <==> Meaning(a) == Meaning(b)
  {
    if Dumps(a) == Dumps(b) {
      WriteUnique(Normal(a), [], Normal(b), []);
      NormalMeaning(a);
      NormalMeaning(b);
    }
    if Meaning(a) == Meaning(b) {
      SameMeaningSameNormal(a, b);
    }
  }

  // ------------------------------------------------- dictionaries with a shape

  /** The value of j[key], if j is a dictionary that has it: Python's get. */
  function Get(j: Json, key: string): Option<Json> {
    if j.Obj? && key in Keys(j.members) then Some(Lookup(j.members, key)) else None
  }

  /** A dictionary display with these keys and values. */
  function Zip(keys: seq<string>, values: seq<Json>): Members
    requires |keys| == |values|
  {
    if keys == [] then Empty else Member(keys[0], values[0], Zip(keys[1..], values[1..]))
  }

  function Dict(keys: seq<string>, values: seq<Json>): Json
    requires |keys| == |values|
  {
    Obj(Zip(keys, values))
  }

  lemma {:induction false} ZipKeys(keys: seq<string>, values: seq<Json>)
    requires |keys| == |values|
    ensures forall k :: k in Keys(Zip(keys, values)) <==> k in keys
  {
    if keys != [] {
      ZipKeys(keys[1..], values[1..]);
    }
  }

  lemma {:induction false} DictShape(keys: seq<string>, values: seq<Json>)
    requires |keys| == |values|
    requires forall i, j | 0 <= i < j < |keys| :: keys[i] != keys[j]
    requires forall v | v in values :: UniqueKeys(v)
    ensures UniqueKeys(Dict(keys, values))
    ensures forall i | 0 <= i < |keys| :: Get(Dict(keys, values), keys[i]) == Some(values[i])
  {
    ZipKeys(keys, values);
    if keys != [] {
      DictShape(keys[1..], values[1..]);
      ZipKeys(keys[1..], values[1..]);
      forall i | 0 < i < |keys| ensures Get(Dict(keys, values), keys[i]) == Some(values[i]) {
        assert keys[i] == keys[1..][i - 1] && values[i] == values[1..][i - 1];
        assert Get(Dict(keys[1..], values[1..]), keys[1..][i - 1]) == Some(values[1..][i - 1]);
      }
    }
  }

  /** Dictionaries that differ in one field serialise differently. */
  lemma FieldTellsApart(a: Json, b: Json, key: string)
    requires a.Obj? && b.Obj? && UniqueKeys(a) && UniqueKeys(b)
    requires Get(a, key).None? != Get(b, key).None? ||
             (Get(a, key).Some? && Get(b, key).Some? && Meaning(Get(a, key).value) != Meaning(Get(b, key).value))
    ensures Dumps(a) != Dumps(b)
  {
    MeaningLookup(a.members);
    MeaningLookup(b.members);
    DumpsIsCanonical(a, b);
  }
}
