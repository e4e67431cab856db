/** JSON-RPC ids as the multiplexer handles them: raw JSON text, built from and read back as
    64-bit integers (internal/acp/codec.go). */
module Codec {

  datatype Option<+T> = None | Some(value: T)

  /** A JSON-RPC id, kept as its raw JSON text. */
  type RawId = string

  const MinInt: int := -0x8000_0000_0000_0000
  const MaxInt: int := 0x7fff_ffff_ffff_ffff

  function Digit(n: nat): char
    requires n < 10
  {
    ('0' as int + n) as char
  }

  predicate IsDigit(c: char) {
    '0' <= c <= '9'
  }

  function DigitValue(c: char): (n: nat)
    requires IsDigit(c)
    ensures n < 10 && Digit(n) == c
  {
    c as int - '0' as int
  }

  /** Decimal text of a natural number, most significant digit first, no leading zero. */
  function Decimal(n: nat): (s: string)
    ensures |s| > 0 && forall c <- s :: IsDigit(c)
  {
    if n < 10 then [Digit(n)] else Decimal(n / 10) + [Digit(n % 10)]
  }

  /** Decimal value of a string of digits. */
  function Value(s: string): nat
    requires forall c <- s :: IsDigit(c)
  {
    if s == [] then 0 else 10 * Value(s[..|s| - 1]) + DigitValue(s[|s| - 1])
  }

  /** strconv.Itoa */
  function Itoa(n: int): (s: string) {
    if n < 0 then "-" + Decimal(-n) else Decimal(n)
  }

  function Unsigned(s: string): Option<int> {
    if s != [] && forall c <- s :: IsDigit(c) then Some(Value(s)) else None
  }

  function InRange(n: int): Option<int> {
    if MinInt <= n <= MaxInt then Some(n) else None
  }

  /** strconv.Atoi: an optional sign, then decimal digits, then the 64-bit range check. */
  function Atoi(s: string): Option<int> {
    var signed := |s| > 0 && (s[0] == '-' || s[0] == '+');
    match Unsigned(if signed then s[1..] else s)
    case None => None
    case Some(n) => InRange(if signed && s[0] == '-' then -n else n)
  }

  /** The white space that unicode.IsSpace recognises. */
  predicate IsSpace(c: char) {
    '\t' <= c <= '\r' || c == ' ' || c as int == 0x85 || c as int == 0xa0 || c as int == 0x1680
    || 0x2000 <= c as int <= 0x200a || c as int == 0x2028 || c as int == 0x2029
    || c as int == 0x202f || c as int == 0x205f || c as int == 0x3000
  }

  function TrimLeft(s: string): string {
    if s != [] && IsSpace(s[0]) then TrimLeft(s[1..]) else s
  }

  function TrimRight(s: string): string {
    if s != [] && IsSpace(s[|s| - 1]) then TrimRight(s[..|s| - 1]) else s
  }

  /** strings.TrimSpace */
  function TrimSpace(s: string): string {
    TrimRight(TrimLeft(s))
  }

  /** IntID: the raw id of an integer. */
  function IntID(n: int): RawId {
    Itoa(n)
  }

  /** AsInt: the integer a raw id denotes; None for an absent, string or null id. */
  function AsInt(id: Option<RawId>): Option<int> {
    match id
    case None => None
    case Some(raw) => Atoi(TrimSpace(raw))
  }

  lemma {:induction false} ValueOfDecimal(n: nat)
    ensures Value(Decimal(n)) == n
  {
    if n < 10 {
      assert Decimal(n)[..0] == [];
    } else {
      ValueOfDecimal(n / 10);
      assert Decimal(n)[..|Decimal(n)| - 1] == Decimal(n / 10);
    }
  }

  lemma ItoaHead(n: int)
    ensures |Itoa(n)| > 0
    ensures n < 0 <==> Itoa(n)[0] == '-'
    ensures n >= 0 <==> IsDigit(Itoa(n)[0])
  {
    if n >= 0 {
      assert Itoa(n)[0] in Decimal(n);
    }
  }

  /** No two integers share a text: distinct upstream ids never collide as table keys. */
  lemma {:induction false} ItoaInjective(m: int, n: int)
    requires Itoa(m) == Itoa(n)
    ensures m == n
  {
    ItoaHead(m);
    ItoaHead(n);
    if m < 0 {
      assert Itoa(m)[1..] == Decimal(-m) && Itoa(n)[1..] == Decimal(-n);
      ValueOfDecimal(-m);
      ValueOfDecimal(-n);
    } else {
      ValueOfDecimal(m);
      ValueOfDecimal(n);
    }
  }

  lemma TrimSpaceOfItoa(n: int)
    ensures TrimSpace(Itoa(n)) == Itoa(n)
  {
    var s := Itoa(n);
    assert IsDigit(s[|s| - 1]) by {
      var d := Decimal(if n < 0 then -n else n);
      assert s[|s| - 1] == d[|d| - 1];
    }
    ItoaHead(n);
  }

  /** AsInt undoes IntID, so an id that a peer echoes verbatim finds its request. */
  lemma {:induction false} AsIntOfIntID(n: int)
    requires MinInt <= n <= MaxInt
    ensures AsInt(Some(IntID(n))) == Some(n)
  {
    TrimSpaceOfItoa(n);
    ItoaHead(n);
    if n < 0 {
      assert Itoa(n)[1..] == Decimal(-n);
      ValueOfDecimal(-n);
    } else {
      ValueOfDecimal(n);
    }
  }

  /** A JSON string id (opening quote first) or a null id never enters the integer bookkeeping,
      whatever it spells. */
  lemma AsIntOnlyIntegers(body: string)
    ensures AsInt(Some("\"" + body)) == None
    ensures AsInt(Some("null")) == None
    ensures AsInt(None) == None
  {
    var s := "\"" + body;
    var t := TrimSpace(s);
    assert TrimLeft(s) == s;
    TrimRightKeepsHead(s);
    assert t[0] == '"';
    assert !IsDigit(t[0]) && t[0] in t;
    assert TrimSpace("null") == "null" && !IsDigit("null"[0]) && "null"[0] in "null";
  }

  lemma {:induction false} TrimRightKeepsHead(s: string)
    requires s != [] && !IsSpace(s[0])
    ensures TrimRight(s) != [] && TrimRight(s)[0] == s[0]
  {
    if IsSpace(s[|s| - 1]) {
      TrimRightKeepsHead(s[..|s| - 1]);
    }
  }

  // ------------------------------------------------------------------ which texts are integers

  function ZeroDigits(k: nat): string {
    seq(k, _ => '0')
  }

  /** An optional sign, leading zeros and the decimal digits. */
  ghost predicate Spells(s: string, n: int) {
    exists sign, k: nat :: SpellsBy(s, n, sign, k)
  }

  ghost predicate SpellsBy(s: string, n: int, sign: string, k: nat) {
    && (sign == "" || sign == "+" || sign == "-") && (n < 0 ==> sign == "-") && (n > 0 ==> sign != "-")
    && s == sign + (ZeroDigits(k) + Decimal(if n < 0 then -n else n))
  }

  lemma {:induction false} ZeroValue(k: nat)
    ensures Value(ZeroDigits(k)) == 0
  {
    if k > 0 {
      assert ZeroDigits(k)[..k - 1] == ZeroDigits(k - 1);
      ZeroValue(k - 1);
    }
  }

  lemma {:induction false} ValueOfSpelled(k: nat, n: nat)
    ensures Value(ZeroDigits(k) + Decimal(n)) == n
  {
    var s := ZeroDigits(k) + Decimal(n);
    if n < 10 {
      ZeroValue(k);
      assert s[..|s| - 1] == ZeroDigits(k) && s[|s| - 1] == Digit(n);
    } else {
      ValueOfSpelled(k, n / 10);
      assert s == ZeroDigits(k) + Decimal(n / 10) + [Digit(n % 10)];
      assert s[..|s| - 1] == ZeroDigits(k) + Decimal(n / 10);
    }
  }

  lemma {:induction false} DigitsSpell(s: string) returns (k: nat)
    requires s != [] && forall c <- s :: IsDigit(c)
    ensures s == ZeroDigits(k) + Decimal(Value(s))
  {
    var front, last := s[..|s| - 1], s[|s| - 1];
    assert s == front + [last];
    k := 0;
    if front == [] {
      assert Value(front) == 0;
    } else {
      k := DigitsSpell(front);
      if Value(front) == 0 {
        assert Decimal(0) == ZeroDigits(1);
        assert front == ZeroDigits(k + 1);
        k := k + 1;
      } else {
        assert Value(s) / 10 == Value(front) && Value(s) % 10 == DigitValue(last);
        assert Decimal(Value(s)) == Decimal(Value(front)) + [last];
      }
    }
  }

  /** Read as an integer is exactly what spells one of the 64-bit range. */
  lemma AtoiMeans(s: string, n: int)
    ensures Atoi(s) == Some(n) <==> MinInt <= n <= MaxInt && Spells(s, n)
  {
    if Atoi(s) == Some(n) {
      ReadIsSpelled(s, n);
    }
    if sign, k: nat :| MinInt <= n <= MaxInt && SpellsBy(s, n, sign, k) {
      SpelledIsRead(s, n, sign, k);
    }
    hide *;
  }

  lemma ReadIsSpelled(s: string, n: int)
    requires Atoi(s) == Some(n)
    ensures MinInt <= n <= MaxInt && Spells(s, n)
  {
    var signed := |s| > 0 && (s[0] == '-' || s[0] == '+');
    var digits := if signed then s[1..] else s;
    var k := DigitsSpell(digits);
    UnsignedIsValue(digits);
    hide Value, Decimal, ZeroDigits, Unsigned;
    Signs(s, if signed then s[..1] else "", digits, n, k);
  }

  lemma UnsignedIsValue(s: string)
    ensures Unsigned(s).Some? ==> (forall c <- s :: IsDigit(c)) && Unsigned(s).value == Value(s)
  {
  }

  lemma Signs(s: string, sign: string, digits: string, n: int, k: nat)
    requires s == sign + digits && digits == ZeroDigits(k) + Decimal(if n < 0 then -n else n)
    requires (sign == "" || sign == "+" || sign == "-") && (n < 0 ==> sign == "-") && (n > 0 ==> sign != "-")
    ensures Spells(s, n)
  {
    hide ZeroDigits, Decimal;
    assert SpellsBy(s, n, sign, k);
  }

  lemma SpelledIsRead(s: string, n: int, sign: string, k: nat)
    requires MinInt <= n <= MaxInt && SpellsBy(s, n, sign, k)
    ensures Atoi(s) == Some(n)
  {
    var digits := ZeroDigits(k) + Decimal(if n < 0 then -n else n);
    ValueOfSpelled(k, if n < 0 then -n else n);
    assert digits != [] && forall c <- digits :: IsDigit(c);
    SignedIsRead(s, sign, digits, n);
  }

  lemma SignedIsRead(s: string, sign: string, digits: string, n: int)
    requires MinInt <= n <= MaxInt && s == sign + digits && digits != [] && IsDigit(digits[0])
    requires Unsigned(digits) == Some(if n < 0 then -n else n)
    requires (sign == "" || sign == "+" || sign == "-") && (n < 0 ==> sign == "-") && (n > 0 ==> sign != "-")
    ensures Atoi(s) == Some(n)
  {
    hide Unsigned;
    if sign == "" {
      assert s == digits;
    } else {
      assert s[0] == sign[0] && s[1..] == digits;
    }
  }

  predicate Blank(s: string) {
    forall c <- s :: IsSpace(c)
  }

  lemma {:induction false} TrimLeftCuts(s: string) returns (k: nat)
    ensures k <= |s| && TrimLeft(s) == s[k..] && Blank(s[..k])
  {
    k := 0;
    if s != [] && IsSpace(s[0]) {
      k := TrimLeftCuts(s[1..]);
      assert s[..k + 1] == [s[0]] + s[1..][..k];
      k := k + 1;
    }
  }

  lemma {:induction false} TrimRightCuts(s: string) returns (k: nat)
    ensures k <= |s| && TrimRight(s) == s[..k] && Blank(s[k..])
  {
    k := |s|;
    if s != [] && IsSpace(s[|s| - 1]) {
      var front := s[..|s| - 1];
      k := TrimRightCuts(front);
      assert s[k..] == front[k..] + [s[|s| - 1]];
      assert front[..k] == s[..k];
    }
  }

  lemma {:induction false} TrimLeftDrops(left: string, t: string)
    requires Blank(left) && t != [] && !IsSpace(t[0])
    ensures TrimLeft(left + t) == t
  {
    if left == [] {
      assert left + t == t;
    } else {
      assert (left + t)[1..] == left[1..] + t;
      TrimLeftDrops(left[1..], t);
    }
  }

  lemma {:induction false} TrimRightDrops(t: string, right: string)
    requires Blank(right) && t != [] && !IsSpace(t[|t| - 1])
    ensures TrimRight(t + right) == t
  {
    if right == [] {
      assert t + right == t;
    } else {
      assert (t + right)[..|t + right| - 1] == t + right[..|right| - 1];
      TrimRightDrops(t, right[..|right| - 1]);
    }
  }

  /** What stands between blanks is found. */
  lemma TrimSpaceFinds(left: string, t: string, right: string)
    requires Blank(left) && Blank(right) && t != [] && !IsSpace(t[0]) && !IsSpace(t[|t| - 1])
    ensures TrimSpace(left + (t + right)) == t
  {
    TrimLeftDrops(left, t + right);
    TrimRightDrops(t, right);
  }

  lemma TrimSpaceCuts(s: string) returns (left: string, right: string)
    ensures s == left + (TrimSpace(s) + right) && Blank(left) && Blank(right)
  {
    var i := TrimLeftCuts(s);
    var t := s[i..];
    var j := TrimRightCuts(t);
    left, right := s[..i], t[j..];
    assert TrimSpace(s) == t[..j];
    hide *;
    assert t == t[..j] + right && s == left + t;
  }

  /** A raw id is an integer exactly if, blanks around it aside, it spells one of the 64-bit range. */
  lemma AsIntMeans(raw: RawId, n: int)
    ensures AsInt(Some(raw)) == Some(n) <==>
              MinInt <= n <= MaxInt
              && exists left, t, right :: raw == left + (t + right) && Blank(left) && Blank(right) && Spells(t, n)
  {
    assert AsInt(Some(raw)) == Atoi(TrimSpace(raw));
    hide *;
    AtoiMeans(TrimSpace(raw), n);
    if AsInt(Some(raw)) == Some(n) {
      var left, right := TrimSpaceCuts(raw);
    }
    if left, t, right :|
      MinInt <= n <= MaxInt && raw == left + (t + right) && Blank(left) && Blank(right) && Spells(t, n)
    {
      SpelledHasNoBlanks(t, n);
      TrimSpaceFinds(left, t, right);
    }
  }

  lemma SpelledHasNoBlanks(s: string, n: int)
    requires Spells(s, n)
    ensures s != [] && !IsSpace(s[0]) && !IsSpace(s[|s| - 1])
  {
    var sign, k: nat :| SpellsBy(s, n, sign, k);
    var digits := ZeroDigits(k) + Decimal(if n < 0 then -n else n);
    assert digits != [] && forall c <- digits :: IsDigit(c);
    assert IsDigit(digits[0]) && IsDigit(digits[|digits| - 1]);
    assert s == sign + digits;
    assert s[|s| - 1] == digits[|digits| - 1] && s[0] == if sign == "" then digits[0] else sign[0];
  }
}
