/** A reader of JSON text written from RFC 8259, independent of the writer: the
    strings of its section 7 with every escape it allows, white space between
    tokens, the literal names, integers and objects. ReadsBack says that what
    the writer of module CanonicalJson writes is read back as the same value.

    KeysAscend says in which order the hashed texts list their keys. */
module JsonReader {
  import opened Basics
  import opened CanonicalJson

  datatype Parsed<+T> = Fails | Reads(value: T, rest: string)

  // ---------------------------------------------------------------- the reader

  predicate IsBlank(c: char) {
    c == ' ' || c == '\t' || c == '\n' || c == '\r'
  }

  function Skip(s: string): (r: string)
    ensures |r| <= |s|
  {
    if s != [] && IsBlank(s[0]) then Skip(s[1..]) else s
  }

  function HexDigit(c: char): Option<nat> {
    if '0' <= c <= '9' then Some(c as int - '0' as int)
    else if 'a' <= c <= 'f' then Some(c as int - 'a' as int + 10)
    else if 'A' <= c <= 'F' then Some(c as int - 'A' as int + 10)
    else None
  }

  /** The code unit that four hexadecimal digits stand for. */
  function CodeUnit(s: string): Option<nat>
    requires |s| >= 4
  {
    match (HexDigit(s[0]), HexDigit(s[1]), HexDigit(s[2]), HexDigit(s[3]))
    case (Some(a), Some(b), Some(c), Some(d)) => Some(((a * 16 + b) * 16 + c) * 16 + d)
    case _ => None
  }

  /** What follows a backslash and a u: one code unit, or a surrogate pair. */
  function ReadUnit(s: string): (r: Parsed<char>)
    ensures r.Reads? ==> |r.rest| < |s|
  {
    if |s| < 4 || CodeUnit(s).None? then Fails
    else
      var u := CodeUnit(s).value;
      if u < 0xD800 || 0xE000 <= u < 0x10000 then Reads(u as char, s[4..])
      else if 0xD800 <= u < 0xDC00 && |s| >= 10 && s[4] == '\\' && s[5] == 'u' && CodeUnit(s[6..]).Some? then
        var v := CodeUnit(s[6..]).value;
        if 0xDC00 <= v < 0xE000 then Reads((0x10000 + (u - 0xD800) * 0x400 + (v - 0xDC00)) as char, s[10..]) else Fails
      else Fails
  }

  /** One character of a string, escaped or not. */
  function ReadChar(s: string): (r: Parsed<char>)
    ensures r.Reads? ==> |r.rest| < |s|
  {
    if s == [] || s[0] == '\"' || s[0] < ' ' then Fails
    else if s[0] != '\\' then Reads(s[0], s[1..])
    else if |s| == 1 then Fails
    else if s[1] == '\"' || s[1] == '\\' || s[1] == '/' then Reads(s[1], s[2..])
    else if s[1] == 'b' then Reads('\U{0008}', s[2..])
    else if s[1] == 'f' then Reads('\U{000C}', s[2..])
    else if s[1] == 'n' then Reads('\n', s[2..])
    else if s[1] == 'r' then Reads('\r', s[2..])
    else if s[1] == 't' then Reads('\t', s[2..])
    else if s[1] == 'u' then ReadUnit(s[2..])
    else Fails
  }

  /** The rest of a string after its opening quotation mark. */
  function ReadChars(s: string): (r: Parsed<string>)
    ensures r.Reads? ==> |r.rest| < |s|
    decreases |s|
  {
    if s != [] && s[0] == '\"' then Reads("", s[1..])
    else
      var first := ReadChar(s);
      if first.Fails? then Fails
      else
        var others := ReadChars(first.rest);
        if others.Fails? then Fails else Reads([first.value] + others.value, others.rest)
  }

  function DigitRun(s: string): (n: nat)
    ensures n <= |s| && forall i | 0 <= i < n :: '0' <= s[i] <= '9'
  {
    if s != [] && '0' <= s[0] <= '9' then 1 + DigitRun(s[1..]) else 0
  }

  function Natural(s: string): nat
    requires forall i | 0 <= i < |s| :: '0' <= s[i] <= '9'
  {
    if s == [] then 0 else 10 * Natural(s[..|s| - 1]) + (s[|s| - 1] as int - '0' as int)
  }

  /** Digits without a leading zero, and neither fraction nor exponent. */
  function ReadNatural(s: string): (r: Parsed<nat>)
    ensures r.Reads? ==> |r.rest| < |s|
  {
    var n := DigitRun(s);
    if n == 0 || (n > 1 && s[0] == '0') || (n < |s| && (s[n] == '.' || s[n] == 'e' || s[n] == 'E')) then Fails
    else Reads(Natural(s[..n]), s[n..])
  }

  function ReadInt(s: string): (r: Parsed<int>)
    ensures r.Reads? ==> |r.rest| < |s|
  {
    if s != [] && s[0] == '-' then
      var r := ReadNatural(s[1..]);
      if r.Fails? then Fails else Reads(0 - (r.value as int), r.rest)
    else ReadNatural(s)
  }

  function ReadValue(text: string): (r: Parsed<Json>)
    ensures r.Reads? ==> |r.rest| < |text|
    decreases |text|, 1
  {
    var s := Skip(text);
    if s == [] then Fails
    else if s[0] == '\"' then
      var r := ReadChars(s[1..]);
      if r.Fails? then Fails else Reads(Str(r.value), r.rest)
    else if s[0] == '{' then
      var inside := Skip(s[1..]);
      if inside != [] && inside[0] == '}' then Reads(Obj(Empty), inside[1..])
      else
        var r := ReadMembers(inside);
        if r.Fails? then Fails else Reads(Obj(r.value), r.rest)
    else if "null" <= s then Reads(Null, s[4..])
    else if "true" <= s then Reads(Bool(true), s[4..])
    else if "false" <= s then Reads(Bool(false), s[5..])
    else
      var r := ReadInt(s);
      if r.Fails? then Fails else Reads(Int(r.value), r.rest)
  }

  /** One member at least, up to the closing brace. */
  function ReadMembers(text: string): (r: Parsed<Members>)
    ensures r.Reads? ==> |r.rest| < |text|
    decreases |text|, 0
  {
    var s := Skip(text);
    if s == [] || s[0] != '\"' then Fails
    else
      var key := ReadChars(s[1..]);
      if key.Fails? || Skip(key.rest) == [] || Skip(key.rest)[0] != ':' then Fails
      else
        var value := ReadValue(Skip(key.rest)[1..]);
        if value.Fails? || Skip(value.rest) == [] then Fails
        else
          var after := Skip(value.rest);
          if after[0] == '}' then Reads(Member(key.value, value.value, Empty), after[1..])
          else if after[0] != ',' then Fails
          else
            var others := ReadMembers(after[1..]);
            if others.Fails? then Fails else Reads(Member(key.value, value.value, others.value), others.rest)
  }

  // ------------------------------------------------------------- the round trip

  lemma HexReads(n: nat)
    requires n < 16
    ensures HexDigit(Hex(n)) == Some(n)
  {
  }

  lemma UnitReads(u: nat, t: string)
    requires u < 0x10000
    ensures CodeUnit((Unit(u) + t)[2..]) == Some(u) && (Unit(u) + t)[2..][4..] == t
  {
    HexReads(u / 0x1000);
    HexReads(u / 0x100 % 16);
    HexReads(u / 16 % 16);
    HexReads(u % 16);
    HexParts(u);
  }

  lemma PairReads(v: nat, t: string)
    requires v < 0x100000
    ensures ReadUnit((Pair(v) + t)[2..]) == Reads((0x10000 + v) as char, t)
  {
    hide Unit, CodeUnit;
    var high, low := 0xD800 + v / 0x400, 0xDC00 + v % 0x400;
    UnitStarts(high, Unit(low) + t);
    UnitStarts(low, t);
    assert Pair(v) + t == Unit(high) + (Unit(low) + t);
    UnitReads(high, Unit(low) + t);
    UnitReads(low, t);
    var s := (Pair(v) + t)[2..];
    assert s[4..] == Unit(low) + t;
    assert s[6..] == (Unit(low) + t)[2..] && s[10..] == t;
    assert s[4] == s[4..][0] == '\\' && s[5] == s[4..][1] == 'u';
  }

  lemma PlainReads(c: char, t: string)
    requires |EscapeChar(c)| <= 2
    ensures EscapeChar(c) != [] && EscapeChar(c)[0] != '\"'
    ensures ReadChar(EscapeChar(c) + t) == Reads(c, t)
  {
    var e := EscapeChar(c);
    var s := e + t;
    EscapeCharShape(c);
    assert s[|e|..] == t && s[0] == e[0];
    if |e| == 2 {
      assert s[1] == e[1] == ShortEscape(c);
    }
  }

  lemma UnitCharReads(c: char, t: string)
    requires |EscapeChar(c)| == 6
    ensures EscapeChar(c)[0] != '\"' && ReadChar(EscapeChar(c) + t) == Reads(c, t)
  {
    hide Unit, CodeUnit, ShortEscape;
    var s := EscapeChar(c) + t;
    EscapeCharShape(c);
    UnitReads(c as int, t);
    UnitStarts(c as int, t);
    assert s == Unit(c as int) + t;
  }

  lemma UnitStarts(u: nat, t: string)
    requires u < 0x10000
    ensures |Unit(u)| == 6 && Unit(u)[0] == '\\' && (Unit(u) + t)[0] == '\\' && (Unit(u) + t)[1] == 'u'
  {
  }

  lemma PairCharReads(c: char, t: string)
    requires |EscapeChar(c)| == 12
    ensures EscapeChar(c)[0] != '\"' && ReadChar(EscapeChar(c) + t) == Reads(c, t)
  {
    hide Unit, CodeUnit, ShortEscape, ReadUnit;
    var s, v := EscapeChar(c) + t, c as int - 0x10000;
    EscapeCharShape(c);
    PairReads(v, t);
    UnitStarts(0xD800 + v / 0x400, Unit(0xDC00 + v % 0x400) + t);
    assert s == Unit(0xD800 + v / 0x400) + (Unit(0xDC00 + v % 0x400) + t);
  }

  lemma CharReads(c: char, t: string)
    ensures EscapeChar(c) != [] && EscapeChar(c)[0] != '\"'
    ensures ReadChar(EscapeChar(c) + t) == Reads(c, t)
  {
    hide EscapeChar, ReadChar;
    EscapeCharShape(c);
    if |EscapeChar(c)| == 6 {
      UnitCharReads(c, t);
    } else if |EscapeChar(c)| == 12 {
      PairCharReads(c, t);
    } else {
      PlainReads(c, t);
    }
  }

  lemma {:induction false} CharsRead(s: string, t: string)
    ensures ReadChars(Escape(s) + (['\"'] + t)) == Reads(s, t)
  {
    if s == [] {
      assert Escape(s) + (['\"'] + t) == ['\"'] + t;
    } else {
      var others := Escape(s[1..]) + (['\"'] + t);
      EscapeStep(s, t);
      CharReads(s[0], others);
      CharsRead(s[1..], t);
      assert (EscapeChar(s[0]) + others)[0] == EscapeChar(s[0])[0];
      assert s == [s[0]] + s[1..];
    }
  }

  lemma DigitsOfMany(n: nat)
    requires n >= 10
    ensures |Digits(n)| > 1 && Digits(n)[..|Digits(n)| - 1] == Digits(n / 10)
    ensures Digits(n)[|Digits(n)| - 1] as int - '0' as int == n % 10 && '0' <= Digits(n)[|Digits(n)| - 1] <= '9'
  {
    hide Digit;
    DigitsShape(n / 10);
    DigitValue(n % 10);
    assert Digits(n) == Digits(n / 10) + [Digit(n % 10)];
  }

  lemma DigitValue(d: nat)
    requires d < 10
    ensures Digit(d) as int - '0' as int == d && '0' <= Digit(d) <= '9'
  {
  }

  lemma DigitsOfOne(n: nat)
    requires n < 10
    ensures |Digits(n)| == 1 && Digits(n)[0] as int - '0' as int == n && '0' <= Digits(n)[0] <= '9'
  {
  }

  lemma {:induction false} DigitsAreNatural(n: nat)
    ensures (forall i | 0 <= i < |Digits(n)| :: '0' <= Digits(n)[i] <= '9') && Natural(Digits(n)) == n
    ensures |Digits(n)| > 0 && (Digits(n)[0] == '0' <==> n == 0) && (n == 0 ==> |Digits(n)| == 1)
  {
    hide Digits;
    var ds := Digits(n);
    if n >= 10 {
      DigitsOfMany(n);
      DigitsAreNatural(n / 10);
      assert ds[0] == ds[..|ds| - 1][0];
      assert forall i | 0 <= i < |ds| - 1 :: ds[i] == ds[..|ds| - 1][i];
    } else {
      DigitsOfOne(n);
      assert ds[..0] == [];
    }
  }

  lemma {:induction false} RunOfDigits(ds: string, t: string)
    requires (forall i | 0 <= i < |ds| :: '0' <= ds[i] <= '9') && Stops(t)
    ensures DigitRun(ds + t) == |ds|
  {
    if ds == [] {
      assert ds + t == t;
    } else {
      assert (ds + t)[1..] == ds[1..] + t;
      RunOfDigits(ds[1..], t);
    }
  }

  lemma NaturalReads(n: nat, t: string)
    requires Stops(t)
    ensures ReadNatural(Digits(n) + t) == Reads(n, t)
  {
    var ds := Digits(n);
    DigitsAreNatural(n);
    RunOfDigits(ds, t);
    assert (ds + t)[..|ds|] == ds && (ds + t)[|ds|..] == t && (ds + t)[0] == ds[0];
    if t != [] { assert (ds + t)[|ds|] == t[0]; }
  }

  lemma IntReads(n: int, t: string)
    requires Stops(t)
    ensures ReadInt(Write(Int(n)) + t) == Reads(n, t)
  {
    hide Digits, ReadNatural;
    var ds: string := if n < 0 then Digits(-n) else Digits(n);
    NaturalReads(if n < 0 then -n else n, t);
    DigitsAreNatural(if n < 0 then -n else n);
    if n < 0 {
      assert Write(Int(n)) + t == ['-'] + (ds + t);
      assert (['-'] + (ds + t))[1..] == ds + t;
    } else {
      assert Write(Int(n)) + t == ds + t && (ds + t)[0] == ds[0];
    }
  }

  lemma SkipNothing(s: string)
    requires s == [] || !IsBlank(s[0])
    ensures Skip(s) == s
  {
  }

  lemma SkipOne(s: string)
    requires s == [] || !IsBlank(s[0])
    ensures Skip([' '] + s) == s
  {
    assert ([' '] + s)[1..] == s;
  }

  /** A blank before a value is read over. */
  lemma AfterBlank(s: string)
    requires s != [] && !IsBlank(s[0])
    ensures ReadValue([' '] + s) == ReadValue(s) && ReadMembers([' '] + s) == ReadMembers(s)
  {
    SkipOne(s);
    SkipNothing(s);
  }

  lemma StartsVisibly(j: Json, t: string)
    ensures Write(j) + t != [] && !IsBlank((Write(j) + t)[0])
    ensures (Write(j) + t)[0] == Write(j)[0]
  {
    WriteShape(j);
  }

  lemma LiteralReads(j: Json, t: string)
    requires j.Null? || j.Bool?
    ensures ReadValue(Write(j) + t) == Reads(j, t)
  {
    var s := Write(j) + t;
    StartsVisibly(j, t);
    SkipNothing(s);
    assert s[..|Write(j)|] == Write(j) && s[|Write(j)|..] == t;
    assert Write(j) <= s;
  }

  lemma NumberReads(n: int, t: string)
    requires Stops(t)
    ensures ReadValue(Write(Int(n)) + t) == Reads(Int(n), t)
  {
    hide Write, ReadInt;
    var s := Write(Int(n)) + t;
    StartsVisibly(Int(n), t);
    WriteShape(Int(n));
    assert s[0] == '-' || '0' <= s[0] <= '9';
    SkipNothing(s);
    IntReads(n, t);
  }

  lemma StringReads(x: string, t: string)
    ensures ReadValue(Write(Str(x)) + t) == Reads(Str(x), t)
    ensures (Quote(x) + t)[1..] == Escape(x) + (['\"'] + t)
  {
    hide Escape, ReadChars;
    assert Quote(x) + t == ['\"'] + (Escape(x) + (['\"'] + t));
    SkipNothing(Quote(x) + t);
    CharsRead(x, t);
  }

  /** What is written is read back, whatever may follow it. */
  lemma {:induction false} ReadsBack(j: Json, t: string)
    requires Stops(t)
    ensures ReadValue(Write(j) + t) == Reads(j, t)
    decreases j
  {
    match j
    case Null => LiteralReads(j, t);
    case Bool(_) => LiteralReads(j, t);
    case Int(n) => NumberReads(n, t);
    case Str(x) => StringReads(x, t);
    case Obj(ms) =>
      ObjHead(ms, t);
      SkipNothing(Write(j) + t);
      if ms.Empty? {
        assert (Write(j) + t)[1..] == ['}'] + t;
        SkipNothing(['}'] + t);
      } else {
        var inside := WriteMembers(ms) + (['}'] + t);
        assert (Write(j) + t)[1..] == inside;
        AfterKey(ms, t);
        assert inside[0] == '\"';
        SkipNothing(inside);
        MembersReadBack(ms, t);
      }
  }

  /** A member, and what follows its value. */
  lemma MemberReads(k: string, v: Json, value: string, x: string)
    requires ReadValue(value) == Reads(v, x) && value != [] && !IsBlank(value[0])
    requires x != [] && (x[0] == '}' || x[0] == ',')
    ensures var text := Quote(k) + (": " + value);
      ReadMembers(text) ==
        if x[0] == '}' then Reads(Member(k, v, Empty), x[1..])
        else var others := ReadMembers(x[1..]);
          if others.Fails? then Fails else Reads(Member(k, v, others.value), others.rest)
  {
    hide Quote, Escape, ReadChars, ReadValue;
    var text := Quote(k) + (": " + value);
    QuoteReads(k, ": " + value);
    SkipNothing(text);
    SkipNothing(": " + value);
    assert (": " + value)[1..] == [' '] + value;
    AfterBlank(value);
    SkipNothing(x);
  }

  lemma QuoteReads(k: string, t: string)
    ensures |Quote(k) + t| > 0 && (Quote(k) + t)[0] == '\"' && ReadChars((Quote(k) + t)[1..]) == Reads(k, t)
  {
    assert Quote(k) + t == ['\"'] + (Escape(k) + (['\"'] + t));
    CharsRead(k, t);
  }

  lemma {:induction false} MembersReadBack(ms: Members, t: string)
    requires ms.Member? && Stops(t)
    ensures ReadMembers(WriteMembers(ms) + (['}'] + t)) == Reads(ms, t)
    decreases ms
  {
    hide Quote, ReadChars, ReadValue, ReadMembers, Write;
    var x := AfterValue(ms.rest, t);
    AfterKey(ms, t);
    StartsVisibly(ms.value, x);
    ReadsBack(ms.value, x);
    MemberReads(ms.key, ms.value, Write(ms.value) + x, x);
    if ms.rest.Empty? {
      assert x[1..] == t;
    } else {
      var others := WriteMembers(ms.rest) + (['}'] + t);
      assert x[1..] == [' '] + others;
      MembersStart(ms.rest, t);
      AfterBlank(others);
      MembersReadBack(ms.rest, t);
    }
  }

  lemma MembersStart(ms: Members, t: string)
    requires ms.Member?
    ensures var text := WriteMembers(ms) + (['}'] + t); text != [] && text[0] == '\"'
  {
    AfterKey(ms, t);
  }

  /** A text that is hashed is read back as the value with its keys in order,
      which means the same as the value itself. */
  lemma DumpsReadsBack(j: Json)
    requires UniqueKeys(j)
    ensures ReadValue(Dumps(j)) == Reads(Normal(j), []) && Meaning(Normal(j)) == Meaning(j)
  {
    ReadsBack(Normal(j), []);
    assert Write(Normal(j)) + [] == Dumps(j);
    NormalMeaning(j);
  }

  // ---------------------------------------------------------- the order of keys

  /** a and b agree up to n, where a ends or has the smaller character. */
  predicate DifferAt(a: string, b: string, n: nat) {
    n <= |a| && n <= |b| && a[..n] == b[..n] && (n == |a| < |b| || (n < |a| && n < |b| && a[n] < b[n]))
  }

  ghost predicate ComesFirst(a: string, b: string) {
    exists n: nat :: DifferAt(a, b, n)
  }

  lemma {:induction false} LessIsFirstDifference(a: string, b: string)
    ensures Less(a, b) <==> ComesFirst(a, b)
  {
    if a == [] || b == [] || a[0] != b[0] {
      assert DifferAt(a, b, 0) <==> Less(a, b);
    } else {
      LessIsFirstDifference(a[1..], b[1..]);
      if ComesFirst(a[1..], b[1..]) {
        var n: nat :| DifferAt(a[1..], b[1..], n);
        assert a[..n + 1] == [a[0]] + a[1..][..n] && b[..n + 1] == [b[0]] + b[1..][..n];
        assert DifferAt(a, b, n + 1);
      }
      if ComesFirst(a, b) {
        var n: nat :| DifferAt(a, b, n);
        assert a[1..][..n - 1] == a[..n][1..] && b[1..][..n - 1] == b[..n][1..];
        assert DifferAt(a[1..], b[1..], n - 1);
      }
    }
  }

  /** The keys in the order they stand in the text. */
  function KeyList(ms: Members): seq<string> {
    if ms.Empty? then [] else [ms.key] + KeyList(ms.rest)
  }

  ghost predicate Ascend(keys: seq<string>) {
    forall i, k | 0 <= i < k < |keys| :: ComesFirst(keys[i], keys[k])
  }

  /** At every level the keys stand in ascending order. */
  ghost predicate KeysAscend(j: Json) {
    j.Obj? ==> Ascend(KeyList(j.members)) && MembersAscend(j.members)
  }

  ghost predicate MembersAscend(ms: Members) {
    ms.Member? ==> KeysAscend(ms.value) && MembersAscend(ms.rest)
  }

  lemma {:induction false} ListedKeys(ms: Members)
    ensures forall k :: k in KeyList(ms) <==> k in Keys(ms)
  {
    if ms.Member? {
      ListedKeys(ms.rest);
    }
  }

  lemma {:induction false} SortedAscends(ms: Members)
    requires Sorted(ms)
    ensures Ascend(KeyList(ms))
  {
    if ms.Member? {
      var keys, others := KeyList(ms), KeyList(ms.rest);
      SortedAscends(ms.rest);
      ListedKeys(ms.rest);
      forall i, k | 0 <= i < k < |keys| ensures ComesFirst(keys[i], keys[k]) {
        assert keys[k] == others[k - 1] && others[k - 1] in others;
        if i == 0 {
          LessIsFirstDifference(ms.key, keys[k]);
        } else {
          assert keys[i] == others[i - 1];
        }
      }
    }
  }

  lemma {:induction false} InsertAscends(k: string, v: Json, ms: Members)
    requires KeysAscend(v) && MembersAscend(ms)
    ensures MembersAscend(Insert(k, v, ms))
  {
    if ms.Member? && !Less(k, ms.key) {
      InsertAscends(k, v, ms.rest);
    }
  }

  lemma {:induction false} NormalMembersAscend(ms: Members)
    requires UniqueMembers(ms)
    ensures MembersAscend(NormalMembers(ms))
    decreases ms
  {
    if ms.Member? {
      NormalMembersAscend(ms.rest);
      NormalAscends(ms.value);
      InsertAscends(ms.key, Normal(ms.value), NormalMembers(ms.rest));
    }
  }

  /** The text that is hashed lists the keys of every dictionary in ascending
      order of code points. */
  lemma {:induction false} NormalAscends(j: Json)
    requires UniqueKeys(j)
    ensures KeysAscend(Normal(j))
    decreases j
  {
    if j.Obj? {
      NormalMembersCorrect(j.members);
      SortedAscends(NormalMembers(j.members));
      NormalMembersAscend(j.members);
    }
  }

  // ------------------------------------------------------------- the characters

  /** ensure_ascii, character by character: what is printable stands for itself,
      but for the two characters that need a backslash; seven characters have a
      letter of their own; all others are code units in lower-case digits. */
  lemma PrintableStays(c: char)
    requires ' ' <= c <= '~' && c != '\"' && c != '\\'
    ensures EscapeChar(c) == [c]
  {
  }

  lemma LettersOfTheirOwn()
    ensures EscapeChar('\"') == "\\\"" && EscapeChar('\\') == "\\\\" && EscapeChar('\n') == "\\n" && EscapeChar('\r') == "\\r"
    ensures EscapeChar('\t') == "\\t" && EscapeChar('\U{000C}') == "\\f" && EscapeChar('\U{0008}') == "\\b"
  {
  }

  predicate IsLowerHex(c: char) {
    '0' <= c <= '9' || 'a' <= c <= 'f'
  }

  lemma UnitInLowerHex(u: nat)
    requires u < 0x10000
    ensures |Unit(u)| == 6 && Unit(u)[..2] == "\\u" && forall i | 2 <= i < 6 :: IsLowerHex(Unit(u)[i])
  {
  }

  lemma OthersAreUnits(c: char)
    requires !(' ' <= c <= '~') && c !in {'\n', '\r', '\t', '\U{000C}', '\U{0008}'}
    ensures |EscapeChar(c)| == if c as int < 0x10000 then 6 else 12
    ensures forall i | 0 <= i < |EscapeChar(c)| && i % 6 >= 2 :: IsLowerHex(EscapeChar(c)[i])
  {
    hide Unit;
    EscapeCharShape(c);
    if c as int < 0x10000 {
      UnitInLowerHex(c as int);
    } else {
      var v := c as int - 0x10000;
      UnitInLowerHex(0xD800 + v / 0x400);
      UnitInLowerHex(0xDC00 + v % 0x400);
    }
  }

  lemma WriteOne(c: char, v: Json)
    requires 'a' <= c <= 'z'
    ensures WriteMembers(Member([c], v, Empty)) == ['\"', c, '\"', ':', ' '] + Write(v)
  {
    hide Write;
    PrintableStays(c);
    assert [c][1..] == [] && Escape([c]) == [c];
  }

  lemma WriteMore(c: char, v: Json, rest: Members)
    requires 'a' <= c <= 'z' && rest.Member?
    ensures WriteMembers(Member([c], v, rest)) == ['\"', c, '\"', ':', ' '] + Write(v) + [',', ' '] + WriteMembers(rest)
  {
    hide Write;
    PrintableStays(c);
    assert [c][1..] == [] && Escape([c]) == [c];
  }

  lemma ObjectText(ms: Members)
    requires ms.Member?
    ensures Write(Obj(ms)) == ['{'] + WriteMembers(ms) + ['}']
  {
  }

  lemma SampleNumber()
    ensures Write(Int(-12)) == "-12"
  {
    assert Digits(1) == "1";
    assert Digits(12) == Digits(1) + "2" == "12";
  }

  lemma WriteNull()
    ensures Write(Null) == "null"
  {
  }

  const SAMPLE := Obj(Member("n", Int(-12), Empty))

  lemma SampleInner()
    ensures Write(SAMPLE) == "{\"n\": -12}"
  {
    hide Write, WriteMembers;
    SampleNumber();
    WriteOne('n', Int(-12));
    ObjectText(Member("n", Int(-12), Empty));
  }

  lemma SampleOrder()
    ensures Normal(Obj(Member("b", SAMPLE, Member("a", Null, Empty)))) == Obj(Member("a", Null, Member("b", SAMPLE, Empty)))
  {
    assert Less("a", "b");
    LessTrichotomy("a", "b");
    assert NormalMembers(Member("a", Null, Empty)) == Member("a", Null, Empty);
  }

  lemma SampleMembers()
    ensures WriteMembers(Member("a", Null, Member("b", SAMPLE, Empty))) == "\"a\": null, \"b\": {\"n\": -12}"
  {
    hide Write, WriteMembers;
    SampleInner();
    WriteNull();
    WriteOne('b', SAMPLE);
    assert WriteMembers(Member("b", SAMPLE, Empty)) == "\"b\": {\"n\": -12}";
    WriteMore('a', Null, Member("b", SAMPLE, Empty));
  }

  /** One text in full: order of keys, braces, separators and a sign. */
  lemma SampleText()
    ensures Dumps(Obj(Member("b", SAMPLE, Member("a", Null, Empty)))) == "{\"a\": null, \"b\": {\"n\": -12}}"
  {
    hide Write, WriteMembers, Normal;
    SampleOrder();
    SampleMembers();
    ObjectText(Member("a", Null, Member("b", SAMPLE, Empty)));
  }
}
