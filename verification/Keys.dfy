/** The text keys of the status server: decimal numbers, "host.component" pairs, and the keys of
    the status-event table.  `fmt.Sprintf("%d")`, `strconv.Atoi` with its error dropped, and
    `strings.Split(key, ".")` are written out. */
module Keys {
  const MAX_INT64 := 0x7FFF_FFFF_FFFF_FFFF
  const MIN_INT64 := -0x8000_0000_0000_0000
  const MAX_UINT64 := 0xFFFF_FFFF_FFFF_FFFF

  predicate IsInt64(i: int) {
    MIN_INT64 <= i <= MAX_INT64
  }

  // ---------- printing ----------

  function DigitChar(d: nat): char
    requires d < 10
  {
    '0' + d as char
  }

  function NatText(n: nat): string {
    if n < 10 then [DigitChar(n)] else NatText(n / 10) + [DigitChar(n % 10)]
  }

  function IntText(i: int): string {
    if i < 0 then "-" + NatText(-i) else NatText(i)
  }

  // ---------- parsing ----------

  predicate IsDigit(c: char) {
    '0' <= c <= '9'
  }

  predicate AllDigits(s: string) {
    forall c :: c in s ==> IsDigit(c)
  }

  function DigitsValue(s: string): nat
    requires AllDigits(s)
  {
    if s == [] then 0
    else
      assert IsDigit(s[|s| - 1]);
      10 * DigitsValue(s[..|s| - 1]) + (s[|s| - 1] as nat - '0' as nat)
  }

  function Clamp(i: int): int {
    if i > MAX_INT64 then MAX_INT64 else if i < MIN_INT64 then MIN_INT64 else i
  }

  function DigitPrefix(s: string): (d: string)
    ensures d <= s && AllDigits(d)
  {
    if s == [] || !IsDigit(s[0]) then [] else [s[0]] + DigitPrefix(s[1..])
  }

  /** The number `strconv.Atoi` leaves behind when its error is ignored: 0 for text that is not a
      number, the nearest 64-bit value for a number that is too large.  Reading stops where 64 bits
      no longer hold the digits, so what follows them then does not matter. */
  function Atoi(s: string): int {
    var signed := s != [] && (s[0] == '-' || s[0] == '+');
    var digits := if signed then s[1..] else s;
    var n := DigitsValue(DigitPrefix(digits));
    if digits == [] || (DigitPrefix(digits) != digits && n <= MAX_UINT64) then 0
    else if signed && s[0] == '-' then Clamp(0 - n)
    else Clamp(n)
  }

  function Split(s: string, sep: char): (parts: seq<string>)
    ensures |parts| >= 1
    ensures sep in s ==> |parts| >= 2
  {
    if s == [] then [[]]
    else
      var rest := Split(s[1..], sep);
      if s[0] == sep then [[]] + rest else [[s[0]] + rest[0]] + rest[1..]
  }

  // ---------- "host.component" ----------

  function PairKey(host: int, component: int): string {
    IntText(host) + "." + IntText(component)
  }

  function HostOf(key: string): int {
    Atoi(Split(key, '.')[0])
  }

  function ComponentOf(key: string): int
    requires '.' in key
  {
    Atoi(Split(key, '.')[1])
  }

  /** What the code computes in place from a split key. */
  lemma SplitKey(key: string)
    requires '.' in key
    ensures |Split(key, '.')| >= 2
    ensures Atoi(Split(key, '.')[0]) == HostOf(key) && Atoi(Split(key, '.')[1]) == ComponentOf(key)
  {
  }

  // ---------- keys of the status-event table ----------

  function HcEventKey(host: int, component: int): string {
    "hc." + PairKey(host, component)
  }

  function HostEventKey(host: int): string {
    "host." + IntText(host)
  }

  function ClusterEventKey(cluster: int): string {
    "cluster." + IntText(cluster)
  }

  // ---------- printing and parsing are inverse ----------

  lemma {:induction false} NatTextParses(n: nat)
    ensures NatText(n) != [] && AllDigits(NatText(n)) && DigitsValue(NatText(n)) == n
  {
    if n >= 10 {
      NatTextParses(n / 10);
      assert NatText(n)[..|NatText(n)| - 1] == NatText(n / 10);
    } else {
      assert DigitsValue([DigitChar(n)]) == 10 * DigitsValue([]) + n by {
        assert [DigitChar(n)][..0] == [];
      }
    }
  }

  lemma {:induction false} DigitsToTheEnd(s: string)
    requires AllDigits(s)
    ensures DigitPrefix(s) == s
  {
    if s != [] {
      assert IsDigit(s[0]) by { assert s[0] in s; }
      assert forall c :: c in s[1..] ==> c in s;
      DigitsToTheEnd(s[1..]);
      assert [s[0]] + s[1..] == s;
    }
  }

  lemma IntTextParses(i: int)
    ensures Atoi(IntText(i)) == Clamp(i)
    ensures '.' !in IntText(i)
  {
    var digits := NatText(if i < 0 then -i else i);
    NatTextParses(if i < 0 then -i else i);
    DigitsToTheEnd(digits);
    assert IsDigit(digits[0]) by { assert digits[0] in digits; }
    if i < 0 {
      assert IntText(i)[1..] == digits;
    }
  }

  /** Printing loses nothing, at any width. */
  lemma IntTextInjective(i: int, j: int)
    requires IntText(i) == IntText(j)
    ensures i == j
  {
    NatTextParses(if i < 0 then -i else i);
    NatTextParses(if j < 0 then -j else j);
    var di, dj := NatText(if i < 0 then -i else i), NatText(if j < 0 then -j else j);
    assert IsDigit(di[0]) by { assert di[0] in di; }
    assert IsDigit(dj[0]) by { assert dj[0] in dj; }
    if i < 0 {
      assert IntText(i)[1..] == di && IntText(j)[1..] == dj;
    }
  }

  lemma {:induction false} SplitNone(s: string, sep: char)
    requires sep !in s
    ensures Split(s, sep) == [s]
  {
    if s != [] {
      SplitNone(s[1..], sep);
      assert [s[0]] + s[1..] == s;
    }
  }

  lemma {:induction false} SplitAtFirst(a: string, sep: char, b: string)
    requires sep !in a
    ensures Split(a + [sep] + b, sep) == [a] + Split(b, sep)
  {
    var s := a + [sep] + b;
    if a == [] {
      assert s[1..] == b;
    } else {
      assert s[1..] == a[1..] + [sep] + b;
      SplitAtFirst(a[1..], sep, b);
      assert [a[0]] + a[1..] == a && s[0] == a[0];
    }
  }

  /** A "host.component" key that was printed is read back as the pair it was printed from. */
  lemma PairKeyRoundTrip(host: int, component: int)
    ensures '.' in PairKey(host, component)
    ensures Split(PairKey(host, component), '.') == [IntText(host), IntText(component)]
    ensures IsInt64(host) ==> HostOf(PairKey(host, component)) == host
    ensures IsInt64(component) ==> ComponentOf(PairKey(host, component)) == component
  {
    IntTextParses(host);
    IntTextParses(component);
    SplitAtFirst(IntText(host), '.', IntText(component));
    SplitNone(IntText(component), '.');
    assert PairKey(host, component)[|IntText(host)|] == '.';
  }

  lemma PairKeyInjective(h1: int, c1: int, h2: int, c2: int)
    requires PairKey(h1, c1) == PairKey(h2, c2)
    ensures h1 == h2 && c1 == c2
  {
    PairKeyRoundTrip(h1, c1);
    PairKeyRoundTrip(h2, c2);
    assert [IntText(h1), IntText(c1)][0] == [IntText(h2), IntText(c2)][0];
    assert [IntText(h1), IntText(c1)][1] == [IntText(h2), IntText(c2)][1];
    IntTextInjective(h1, h2);
    IntTextInjective(c1, c2);
  }

  /** No two objects share a slot of the status-event table. */
  lemma EventKeysDistinct(h1: int, c1: int, h2: int, c2: int)
    ensures HcEventKey(h1, c1) == HcEventKey(h2, c2) <==> h1 == h2 && c1 == c2
    ensures HostEventKey(h1) == HostEventKey(h2) <==> h1 == h2
    ensures ClusterEventKey(h1) == ClusterEventKey(h2) <==> h1 == h2
    ensures HcEventKey(h1, c1) != HostEventKey(h2)
    ensures HcEventKey(h1, c1) != ClusterEventKey(h2)
    ensures HostEventKey(h1) != ClusterEventKey(h2)
  {
    assert HcEventKey(h1, c1)[1] == 'c' && HostEventKey(h2)[1] == 'o' && ClusterEventKey(h2)[1] == 'l';
    assert HostEventKey(h1)[1] == 'o';
    if HcEventKey(h1, c1) == HcEventKey(h2, c2) {
      assert HcEventKey(h1, c1)[3..] == PairKey(h1, c1) && HcEventKey(h2, c2)[3..] == PairKey(h2, c2);
      PairKeyInjective(h1, c1, h2, c2);
    }
    if HostEventKey(h1) == HostEventKey(h2) {
      assert HostEventKey(h1)[5..] == IntText(h1) && HostEventKey(h2)[5..] == IntText(h2);
      IntTextInjective(h1, h2);
    }
    if ClusterEventKey(h1) == ClusterEventKey(h2) {
      assert ClusterEventKey(h1)[8..] == IntText(h1) && ClusterEventKey(h2)[8..] == IntText(h2);
      IntTextInjective(h1, h2);
    }
  }

  lemma {:induction false} DigitsUpTo(digits: string, c: char, rest: string)
    requires AllDigits(digits) && !IsDigit(c)
    ensures DigitPrefix(digits + [c] + rest) == digits
  {
    var s := digits + [c] + rest;
    if digits != [] {
      assert IsDigit(digits[0]) by { assert digits[0] in digits; }
      assert forall d :: d in digits[1..] ==> d in digits;
      assert s[1..] == digits[1..] + [c] + rest;
      DigitsUpTo(digits[1..], c, rest);
      assert [digits[0]] + digits[1..] == digits;
    }
  }

  /** Text that is not a number reads as 0, even if it starts with one. */
  lemma AtoiOfOthers(n: nat, c: char, rest: string)
    requires !IsDigit(c) && n <= MAX_UINT64
    ensures Atoi(NatText(n) + [c] + rest) == 0
    ensures c != '+' && c != '-' ==> Atoi([c] + rest) == 0
  {
    NatTextParses(n);
    var digits := NatText(n);
    assert IsDigit(digits[0]) by { assert digits[0] in digits; }
    DigitsUpTo(digits, c, rest);
    DigitsUpTo("", c, rest);
    hide NatText, AllDigits;
    assert "" + [c] + rest == [c] + rest;
    assert |digits + [c] + rest| > |digits|;
    assert DigitsValue("") == 0;
  }

  /** A plus sign is read over, and a sign alone is no number. */
  lemma AtoiOfSigns(n: nat)
    ensures Atoi("+" + NatText(n)) == Clamp(n)
    ensures Atoi("") == 0 && Atoi("-") == 0 && Atoi("+") == 0
  {
    NatTextParses(n);
    DigitsToTheEnd(NatText(n));
    hide NatText;
    assert ("+" + NatText(n))[1..] == NatText(n);
  }

  /** Keys as they are written. */
  lemma KeysAreTexts()
    ensures PairKey(12, 7) == "12.7" && IntText(-30) == "-30"
    ensures HcEventKey(12, 7) == "hc.12.7" && HostEventKey(12) == "host.12" && ClusterEventKey(12) == "cluster.12"
  {
    assert NatText(12) == NatText(1) + [DigitChar(2)] == "12" && NatText(7) == "7";
    assert NatText(30) == NatText(3) + [DigitChar(0)] == "30";
  }
}
