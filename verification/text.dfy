/** The parts of Go's strings and strconv packages the modelled code relies on. */
module Text {
  import opened Wrappers

  /** unicode.IsSpace. */
  predicate IsSpace(c: char) {
    || c in {'\t', '\n', '\U{000B}', '\U{000C}', '\r', ' ', '\U{0085}', '\U{00A0}'}
    || c in {'\U{1680}', '\U{2028}', '\U{2029}', '\U{202F}', '\U{205F}', '\U{3000}'}
    || '\U{2000}' <= c <= '\U{200A}'
  }

  ghost predicate Spaceless(s: string) {
    forall c :: c in s ==> !IsSpace(c)
  }

  ghost predicate IsWord(s: string) {
    s != "" && Spaceless(s)
  }

  function TrimLeft(s: string): string {
    if s != "" && IsSpace(s[0]) then TrimLeft(s[1..]) else s
  }

  function TrimRight(s: string): string {
    if s != "" && IsSpace(s[|s| - 1]) then TrimRight(s[..|s| - 1]) else s
  }

  function TrimSpace(s: string): string {
    TrimRight(TrimLeft(s))
  }

  lemma {:induction false} TrimLeftEnds(s: string)
    ensures var t := TrimLeft(s); t == "" || !IsSpace(t[0])
  {
    if s != "" && IsSpace(s[0]) {
      TrimLeftEnds(s[1..]);
    }
  }

  lemma {:induction false} TrimRightEnds(s: string)
    ensures var t := TrimRight(s); t <= s && (t == "" || !IsSpace(t[|t| - 1]))
  {
    if s != "" && IsSpace(s[|s| - 1]) {
      TrimRightEnds(s[..|s| - 1]);
    }
  }

  lemma TrimTwice(s: string)
    ensures TrimSpace(TrimSpace(s)) == TrimSpace(s)
  {
    TrimLeftEnds(s);
    TrimRightEnds(TrimLeft(s));
  }

  /** Length of the run of non-space characters at the front. */
  function WordLength(s: string): (n: nat)
    ensures n <= |s|
    ensures Spaceless(s[..n])
    ensures n < |s| ==> IsSpace(s[n])
  {
    if s == "" || IsSpace(s[0]) then 0
    else
      var n := WordLength(s[1..]);
      assert s[..n + 1] == [s[0]] + s[1..][..n];
      n + 1
  }

  /** strings.Fields. */
  function Fields(s: string): (words: seq<string>)
    ensures forall w :: w in words ==> IsWord(w)
    decreases |s|
  {
    if s == "" then []
    else if IsSpace(s[0]) then Fields(s[1..])
    else [s[..WordLength(s)]] + Fields(s[WordLength(s)..])
  }

  /** strings.Split with a one-character separator. */
  function Split(s: string, sep: char): (parts: seq<string>)
    ensures |parts| >= 1
    ensures forall p :: p in parts ==> sep !in p
  {
    if s == "" then [""]
    else
      var rest := Split(s[1..], sep);
      if s[0] == sep then [""] + rest else [[s[0]] + rest[0]] + rest[1..]
  }

  lemma {:induction false} SplitConcat(a: string, b: string, sep: char)
    ensures Split(a + [sep] + b, sep) == Split(a, sep) + Split(b, sep)
  {
    var s := a + [sep] + b;
    if a == "" {
      assert s == [sep] + b && s[1..] == b;
    } else {
      assert s[0] == a[0] && s[1..] == a[1..] + [sep] + b;
      SplitConcat(a[1..], b, sep);
    }
  }

  lemma {:induction false} SplitNone(s: string, sep: char)
    requires sep !in s
    ensures Split(s, sep) == [s]
  {
    if s != "" {
      SplitNone(s[1..], sep);
      assert [s[0]] + s[1..] == s;
    }
  }

  lemma {:induction false} FieldsWord(w: string, rest: string)
    requires IsWord(w)
    requires rest == "" || IsSpace(rest[0])
    ensures Fields(w + rest) == [w] + Fields(rest)
  {
    WordPrefix(w, rest);
    assert (w + rest)[..|w|] == w && (w + rest)[|w|..] == rest;
  }

  lemma {:induction false} WordPrefix(w: string, rest: string)
    requires Spaceless(w)
    requires rest == "" || IsSpace(rest[0])
    ensures WordLength(w + rest) == |w|
  {
    if w == "" {
      assert w + rest == rest;
    } else {
      assert (w + rest)[1..] == w[1..] + rest;
      WordPrefix(w[1..], rest);
    }
  }

  lemma {:induction false} FieldsTrimLeft(s: string)
    ensures Fields(TrimLeft(s)) == Fields(s)
  {
    if s != "" && IsSpace(s[0]) {
      FieldsTrimLeft(s[1..]);
    }
  }

  /** A space at the end adds no word. */
  lemma {:induction false} FieldsSpaceAfter(s: string, c: char)
    requires IsSpace(c)
    ensures Fields(s + [c]) == Fields(s)
    decreases |s|
  {
    var t := s + [c];
    if s == "" {
      assert t[1..] == "";
    } else if IsSpace(s[0]) {
      assert t[1..] == s[1..] + [c];
      FieldsSpaceAfter(s[1..], c);
    } else {
      var n := WordLength(s);
      var w, rest := s[..n], s[n..];
      assert s == w + rest && t == w + (rest + [c]);
      FieldsSpaceAfter(rest, c);
      FieldsWord(w, rest);
      FieldsWord(w, rest + [c]);
    }
  }

  lemma {:induction false} FieldsTrimRight(s: string)
    ensures Fields(TrimRight(s)) == Fields(s)
  {
    if s != "" && IsSpace(s[|s| - 1]) {
      FieldsTrimRight(s[..|s| - 1]);
      FieldsSpaceAfter(s[..|s| - 1], s[|s| - 1]);
      assert s == s[..|s| - 1] + [s[|s| - 1]];
    }
  }

  lemma FieldsTrim(s: string)
    ensures Fields(TrimSpace(s)) == Fields(s)
  {
    FieldsTrimRight(TrimLeft(s));
    FieldsTrimLeft(s);
  }

  /** Words with one space between any two. */
  function Spaced(words: seq<string>): string {
    if words == [] then ""
    else if |words| == 1 then words[0]
    else words[0] + (" " + Spaced(words[1..]))
  }

  /** strings.Fields undoes it. */
  lemma {:induction false} FieldsSpaced(words: seq<string>)
    requires forall i :: 0 <= i < |words| ==> IsWord(words[i])
    ensures Fields(Spaced(words)) == words
  {
    if |words| == 1 {
      assert words[0] + "" == words[0];
      FieldsWord(words[0], "");
    } else if |words| > 1 {
      var rest := Spaced(words[1..]);
      FieldsWord(words[0], " " + rest);
      assert (" " + rest)[1..] == rest;
      FieldsSpaced(words[1..]);
    }
  }

  lemma FieldsTrimSpaced(words: seq<string>)
    requires forall i :: 0 <= i < |words| ==> IsWord(words[i])
    ensures Fields(TrimSpace(Spaced(words))) == words
  {
    FieldsTrim(Spaced(words));
    FieldsSpaced(words);
  }

  predicate IsDigit(c: char) {
    '0' <= c <= '9'
  }

  predicate AllDigits(s: string) {
    s != "" && forall i :: 0 <= i < |s| ==> IsDigit(s[i])
  }

  function Value(s: string): nat
    requires forall i :: 0 <= i < |s| ==> IsDigit(s[i])
  {
    if s == "" then 0
    else
      assert IsDigit(s[|s| - 1]);
      Value(s[..|s| - 1]) * 10 + (s[|s| - 1] - '0') as nat
  }

  const MAX_UINT64 := 0xFFFF_FFFF_FFFF_FFFF
  const MAX_INT64 := 0x7FFF_FFFF_FFFF_FFFF

  /** strconv.ParseUint(s, 10, 64). */
  function ParseUint(s: string): Option<nat> {
    if AllDigits(s) && Value(s) <= MAX_UINT64 then Some(Value(s)) else None
  }

  /** strconv.Atoi on a 64-bit int. */
  function Atoi(s: string): Option<int> {
    var negative := s != "" && s[0] == '-';
    var digits := if s != "" && (s[0] == '-' || s[0] == '+') then s[1..] else s;
    if !AllDigits(digits) then None
    else
      var n: int := Value(digits);
      var v := if negative then -n else n;
      if -MAX_INT64 - 1 <= v <= MAX_INT64 then Some(v) else None
  }

  /** The "%d" of fmt on a number that is not negative. */
  function Decimal(n: nat): (s: string)
    ensures AllDigits(s)
  {
    var last := ['0' + (n % 10) as char];
    if n < 10 then last else Decimal(n / 10) + last
  }

  lemma {:induction false} ValueDecimal(n: nat)
    ensures Value(Decimal(n)) == n
  {
    var s := Decimal(n);
    if n < 10 {
      assert s[..|s| - 1] == "";
    } else {
      ValueDecimal(n / 10);
      assert s[..|s| - 1] == Decimal(n / 10);
    }
  }

  lemma AtoiDecimal(n: nat)
    requires n <= MAX_INT64
    ensures Atoi(Decimal(n)) == Some(n) && Decimal(n) != "*" && IsWord(Decimal(n))
  {
    ValueDecimal(n);
    assert IsDigit(Decimal(n)[0]);
  }

  function Zeros(k: nat): string {
    seq(k, _ => '0')
  }

  predicate IsSign(sign: string, n: int) {
    (sign == "" && n >= 0) || (sign == "+" && n >= 0) || (sign == "-" && n <= 0)
  }

  function Magnitude(n: int): nat {
    if n < 0 then -n else n
  }

  /** The text is a number in decimal, with or without a sign and leading zeros. */
  ghost predicate Numeral(t: string, n: int) {
    exists k: nat, sign :: IsSign(sign, n) && t == sign + (Zeros(k) + Decimal(Magnitude(n)))
  }

  lemma DecimalSnoc(n: nat, c: char)
    requires n > 0 && IsDigit(c)
    ensures Decimal(n * 10 + (c - '0') as nat) == Decimal(n) + [c]
  {
    var m := n * 10 + (c - '0') as nat;
    assert m / 10 == n && m % 10 == (c - '0') as nat;
  }

  lemma DecimalDigit(c: char)
    requires IsDigit(c)
    ensures Decimal((c - '0') as nat) == [c]
  {
  }

  lemma FormSnoc(k: nat, n: nat, c: char) returns (j: nat)
    requires IsDigit(c)
    ensures Zeros(k) + Decimal(n) + [c] == Zeros(j) + Decimal(n * 10 + (c - '0') as nat)
  {
    if n == 0 {
      DecimalDigit(c);
      assert Zeros(k) + "0" == Zeros(k + 1);
      j := k + 1;
    } else {
      DecimalSnoc(n, c);
      assert Zeros(k) + Decimal(n) + [c] == Zeros(k) + (Decimal(n) + [c]);
      j := k;
    }
  }

  lemma {:induction false} DigitsForm(s: string) returns (k: nat)
    requires AllDigits(s)
    ensures s == Zeros(k) + Decimal(Value(s))
  {
    var front, last := s[..|s| - 1], s[|s| - 1];
    assert IsDigit(last) && s == front + [last];
    if front == "" {
      k := 0;
      DecimalDigit(last);
    } else {
      k := DigitsForm(front);
      k := FormSnoc(k, Value(front), last);
    }
  }

  lemma {:induction false} ValueForm(k: nat, n: nat)
    ensures AllDigits(Zeros(k) + Decimal(n)) && Value(Zeros(k) + Decimal(n)) == n
  {
    ValueDecimal(n);
    ValueZeros(k, Decimal(n));
  }

  lemma {:induction false} ValueZeros(k: nat, s: string)
    requires forall i :: 0 <= i < |s| ==> IsDigit(s[i])
    ensures forall i :: 0 <= i < |Zeros(k) + s| ==> IsDigit((Zeros(k) + s)[i])
    ensures Value(Zeros(k) + s) == Value(s)
    decreases |s|, k
  {
    var t := Zeros(k) + s;
    if s == "" {
      if k > 0 {
        assert t[..|t| - 1] == Zeros(k - 1) + s;
        ValueZeros(k - 1, s);
      }
    } else {
      assert t[..|t| - 1] == Zeros(k) + s[..|s| - 1];
      ValueZeros(k, s[..|s| - 1]);
    }
  }

  lemma AtoiAccepts(t: string, n: int)
    requires Atoi(t) == Some(n)
    ensures Numeral(t, n)
  {
    var sign := if t[0] == '-' then "-" else if t[0] == '+' then "+" else "";
    var digits := t[|sign|..];
    assert t == sign + digits;
    var k := DigitsForm(digits);
    assert IsSign(sign, n) && Magnitude(n) == Value(digits);
  }

  lemma AtoiReads(sign: string, digits: string, n: int)
    requires IsSign(sign, n) && AllDigits(digits) && Value(digits) == Magnitude(n) && -MAX_INT64 - 1 <= n <= MAX_INT64
    ensures Atoi(sign + digits) == Some(n)
  {
    var t := sign + digits;
    assert IsDigit(digits[0]) && t[|sign|..] == digits;
    if sign == "" {
      assert t == digits;
    } else {
      assert t[1..] == digits;
    }
  }

  /** strconv.Atoi accepts the numerals that fit, and no other text. */
  lemma AtoiExactly(t: string, n: int)
    requires -0x8000_0000_0000_0000 <= n <= 0x7FFF_FFFF_FFFF_FFFF
    ensures Atoi(t) == Some(n) <==> Numeral(t, n)
  {
    if Atoi(t) == Some(n) {
      AtoiAccepts(t, n);
    }
    if Numeral(t, n) {
      var k: nat, sign :| IsSign(sign, n) && t == sign + (Zeros(k) + Decimal(Magnitude(n)));
      ValueForm(k, Magnitude(n));
      AtoiReads(sign, Zeros(k) + Decimal(Magnitude(n)), n);
    }
  }

  /** strconv.ParseUint accepts the decimal digits, leading zeros included, of each number that fits
      in 64 bits, and no other text. */
  lemma ParseUintExactly(t: string, n: nat)
    ensures ParseUint(t) == Some(n) <==>
              n <= 0xFFFF_FFFF_FFFF_FFFF && exists k: nat :: t == Zeros(k) + Decimal(n)
  {
    if ParseUint(t) == Some(n) {
      var k := DigitsForm(t);
      assert t == Zeros(k) + Decimal(n);
    }
    if k: nat :| t == Zeros(k) + Decimal(n) {
      ValueForm(k, n);
    }
  }

  /** The "%d" of fmt. */
  function DecimalInt(n: int): (s: string)
    ensures '/' !in s
  {
    if n < 0 then "-" + Decimal(-n) else Decimal(n)
  }

  lemma DecimalIntInjective(m: int, n: int)
    requires DecimalInt(m) == DecimalInt(n)
    ensures m == n
  {
    var a: nat := if m < 0 then -m else m;
    var b: nat := if n < 0 then -n else n;
    ValueDecimal(a);
    ValueDecimal(b);
    assert IsDigit(Decimal(a)[0]) && IsDigit(Decimal(b)[0]);
    if m < 0 && n < 0 {
      assert ("-" + Decimal(a))[1..] == Decimal(a) && ("-" + Decimal(b))[1..] == Decimal(b);
    }
  }
}
