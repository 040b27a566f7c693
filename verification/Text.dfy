/** The pieces of C++ stream text handling that the shells, the shared-memory tables and the
    configuration reader are built on: whitespace-separated words (`>>`), lines (`getline`),
    and decimal numbers. */
module Text {

  datatype Option<+T> = None | Some(value: T)

  // ---------- words: `stream >> word` ----------

  predicate IsSpace(c: char) {
    c == ' ' || c == '\t' || c == '\n' || c == '\r' || c == 11 as char || c == 12 as char
  }

  /** A word that survives being printed and read back: not empty and free of whitespace. */
  predicate IsWord(w: string) {
    w != "" && NoSpace(w)
  }

  predicate NoSpace(w: string) {
    forall i | 0 <= i < |w| :: !IsSpace(w[i])
  }

  function SkipSpace(s: string): (r: string)
    ensures |r| <= |s|
    ensures r != "" ==> !IsSpace(r[0])
  {
    if s != "" && IsSpace(s[0]) then SkipSpace(s[1..]) else s
  }

  /** The leading whitespace-free part of a text. */
  function Word(s: string): (w: string)
    ensures |w| <= |s| && w == s[..|w|] && NoSpace(w)
    ensures |w| < |s| ==> IsSpace(s[|w|])
  {
    if s == "" || IsSpace(s[0]) then "" else [s[0]] + Word(s[1..])
  }

  function AfterWord(s: string): string {
    s[|Word(s)|..]
  }

  /** A text that a word can be read in front of: nothing more, or a separator. */
  predicate Separated(rest: string) {
    rest == "" || IsSpace(rest[0])
  }

  lemma {:induction false} WordOf(w: string, rest: string)
    requires NoSpace(w) && Separated(rest)
    ensures Word(w + rest) == w && AfterWord(w + rest) == rest
  {
    if w == "" {
      assert w + rest == rest;
    } else {
      assert (w + rest)[1..] == w[1..] + rest;
      WordOf(w[1..], rest);
    }
  }

  /** Reading a word skips leading whitespace first. */
  lemma {:induction false} ReadBack(w: string, rest: string)
    requires IsWord(w) && Separated(rest)
    ensures SkipSpace(w + rest) == w + rest
    ensures Word(w + rest) == w && AfterWord(w + rest) == rest
    ensures SkipSpace(" " + (w + rest)) == w + rest
  {
    WordOf(w, rest);
    assert (w + rest)[0] == w[0];
    assert (" " + (w + rest))[1..] == w + rest;
  }

  /** `while (stream >> token)`: all the words of a text. */
  function Tokens(s: string): (ts: seq<string>)
    ensures forall i | 0 <= i < |ts| :: IsWord(ts[i])
    decreases |s|
  {
    var t := SkipSpace(s);
    if t == "" then [] else [Word(t)] + Tokens(AfterWord(t))
  }

  function Join(words: seq<string>): string {
    if words == [] then ""
    else if |words| == 1 then words[0]
    else words[0] + (" " + Join(words[1..]))
  }

  lemma FirstToken(w: string, rest: string)
    requires IsWord(w) && Separated(rest)
    ensures Tokens(w + rest) == [w] + Tokens(rest)
    ensures Tokens(" " + (w + rest)) == [w] + Tokens(rest)
  {
    ReadBack(w, rest);
    hide Word, AfterWord, SkipSpace;
  }

  lemma {:induction false} TokensOfJoin(words: seq<string>)
    requires forall i | 0 <= i < |words| :: IsWord(words[i])
    ensures Tokens(Join(words)) == words
    ensures words != [] ==> Tokens(" " + Join(words)) == words
  {
    assert Tokens("") == [];
    hide Tokens, IsWord;
    if |words| > 0 {
      var rest := if |words| == 1 then "" else " " + Join(words[1..]);
      assert Join(words) == words[0] + rest;
      FirstToken(words[0], rest);
      if |words| > 1 {
        TokensOfJoin(words[1..]);
      }
      assert words == [words[0]] + words[1..];
    }
  }

  // ---------- lines: `getline(stream, line)` ----------

  predicate OneLine(s: string) {
    '\n' !in s
  }

  /** The text up to the first newline. */
  function Line(s: string): (l: string)
    ensures |l| <= |s| && l == s[..|l|] && OneLine(l)
    ensures |l| < |s| ==> s[|l|] == '\n'
  {
    if s == "" || s[0] == '\n' then "" else [s[0]] + Line(s[1..])
  }

  /** `while (getline(stream, line))`: a final line needs no newline, but an empty one is not read. */
  function Lines(s: string): (ls: seq<string>)
    ensures forall i | 0 <= i < |ls| :: OneLine(ls[i])
    decreases |s|
  {
    if s == "" then []
    else
      var l := Line(s);
      if |l| == |s| then [l] else [l] + Lines(s[|l| + 1..])
  }

  lemma {:induction false} LineOf(l: string, rest: string)
    requires OneLine(l)
    ensures Line(l + ("\n" + rest)) == l
  {
    if l == "" {
      assert l + ("\n" + rest) == "\n" + rest;
    } else {
      assert (l + ("\n" + rest))[1..] == l[1..] + ("\n" + rest);
      LineOf(l[1..], rest);
    }
  }

  lemma {:induction false} LinesOf(l: string, rest: string)
    requires OneLine(l)
    ensures Lines(l + ("\n" + rest)) == [l] + Lines(rest)
  {
    LineOf(l, rest);
    assert (l + ("\n" + rest))[|l| + 1..] == rest;
  }

  // ---------- decimal numbers ----------

  predicate IsDigit(c: char) {
    '0' <= c <= '9'
  }

  predicate AllDigits(s: string) {
    forall i | 0 <= i < |s| :: IsDigit(s[i])
  }

  function Decimal(n: nat): (s: string)
    ensures s != "" && AllDigits(s)
    ensures n > 0 ==> s[0] != '0'
  {
    if n < 10 then [('0' as int + n) as char]
    else Decimal(n / 10) + [('0' as int + n % 10) as char]
  }

  /** The value of the leading digits of a text. There are none in a text that starts with something else, and
      the extraction then fails and stores 0; at the end of a text it fails and stores nothing. */
  function ReadNat(s: string): nat {
    Value(LeadingDigits(s))
  }

  function AfterDigits(s: string): string {
    s[|LeadingDigits(s)|..]
  }

  function LeadingDigits(s: string): (d: string)
    ensures |d| <= |s| && d == s[..|d|] && AllDigits(d)
  {
    if s == "" || !IsDigit(s[0]) then "" else [s[0]] + LeadingDigits(s[1..])
  }

  function Value(d: string): nat
    requires AllDigits(d)
  {
    if d == "" then 0
    else Value(d[..|d| - 1]) * 10 + (d[|d| - 1] as int - '0' as int)
  }

  lemma {:induction false} ValueOfDecimal(n: nat)
    ensures Value(Decimal(n)) == n
  {
    if n < 10 {
      assert Decimal(n)[..0] == "";
    } else {
      ValueOfDecimal(n / 10);
      var d := Decimal(n);
      assert d[..|d| - 1] == Decimal(n / 10);
    }
  }

  /** Digits that do not start with a zero are the decimal of their value. */
  lemma {:induction false} DecimalOfValue(d: string)
    requires d != "" && AllDigits(d) && d[0] != '0'
    ensures Value(d) >= 1 && Decimal(Value(d)) == d
  {
    var most, c := d[..|d| - 1], d[|d| - 1];
    assert d == most + [c] && IsDigit(c);
    if most == "" {
      assert Value(d) == c as int - '0' as int;
    } else {
      DecimalOfValue(most);
      var digit := c as int - '0' as int;
      assert Value(d) == Value(most) * 10 + digit;
      TenAndDigit(Value(most), digit);
    }
  }

  lemma TenAndDigit(n: nat, digit: nat)
    requires n >= 1 && digit < 10
    ensures Decimal(n * 10 + digit) == Decimal(n) + [('0' as int + digit) as char]
  {
    assert (n * 10 + digit) / 10 == n && (n * 10 + digit) % 10 == digit;
  }

  lemma {:induction false} LeadingDigitsOf(d: string, rest: string)
    requires AllDigits(d)
    requires rest == "" || !IsDigit(rest[0])
    ensures LeadingDigits(d + rest) == d
  {
    if d == "" {
      assert d + rest == rest;
    } else {
      assert (d + rest)[1..] == d[1..] + rest;
      LeadingDigitsOf(d[1..], rest);
    }
  }

  /** A printed number followed by anything but a digit reads back as itself. */
  lemma ReadNatOf(n: nat, rest: string)
    requires rest == "" || !IsDigit(rest[0])
    ensures ReadNat(Decimal(n) + rest) == n
    ensures IsWord(Decimal(n)) && OneLine(Decimal(n))
  {
    LeadingDigitsOf(Decimal(n), rest);
    ValueOfDecimal(n);
  }

  /** A printed number in front of a space, as a field of a line. */
  lemma NumberField(n: nat, rest: string)
    requires rest != "" && rest[0] == ' '
    ensures SkipSpace(Decimal(n) + rest) == Decimal(n) + rest
    ensures ReadNat(Decimal(n) + rest) == n && AfterDigits(Decimal(n) + rest) == rest
  {
    LeadingDigitsOf(Decimal(n), rest);
    ReadNatOf(n, rest);
    assert (Decimal(n) + rest)[0] == Decimal(n)[0];
  }

  lemma OneSpace(s: string)
    requires s != "" ==> !IsSpace(s[0])
    ensures SkipSpace(" " + s) == s
  {
    assert (" " + s)[1..] == s;
  }

  // ---------- addresses ----------

  type Ip = n: nat | n < 0x1_0000_0000

  function Octet(ip: Ip, i: nat): nat
    requires i < 4
  {
    if i == 0 then ip / 0x100_0000
    else if i == 1 then ip / 0x1_0000 % 0x100
    else if i == 2 then ip / 0x100 % 0x100
    else ip % 0x100
  }

  /** `inet_ntoa`. */
  function DottedQuad(ip: Ip): string {
    Decimal(Octet(ip, 0)) + ("." + (Decimal(Octet(ip, 1)) + ("." + (Decimal(Octet(ip, 2)) + ("." + Decimal(Octet(ip, 3)))))))
  }

  /** The number has these four bytes, the first one first. */
  predicate HasBytes(ip: nat, a: nat, b: nat, c: nat, d: nat) {
    a < 256 && b < 256 && c < 256 && d < 256 && ip == ((a * 256 + b) * 256 + c) * 256 + d
  }

  /** An address is written as the decimals of its four bytes, in their order. */
  lemma QuadOfAddress(ip: Ip, a: nat, b: nat, c: nat, d: nat)
    requires HasBytes(ip, a, b, c, d)
    ensures DottedQuad(ip) == Decimal(a) + ("." + (Decimal(b) + ("." + (Decimal(c) + ("." + Decimal(d))))))
  {
    OctetsOf(ip, a, b, c, d);
    hide Octet, Decimal, HasBytes;
  }

  lemma OctetsOf(ip: Ip, a: nat, b: nat, c: nat, d: nat)
    requires HasBytes(ip, a, b, c, d)
    ensures Octet(ip, 0) == a && Octet(ip, 1) == b && Octet(ip, 2) == c && Octet(ip, 3) == d
  {
    var ab := a * 256 + b;
    var abc := ab * 256 + c;
    assert ip / 0x100 == abc && ip % 0x100 == d;
    assert abc / 0x100 == ab && abc % 0x100 == c;
    assert ip == ab * 0x1_0000 + (c * 0x100 + d) && c * 0x100 + d < 0x1_0000;
    assert ip / 0x1_0000 == ab;
    assert ip == a * 0x100_0000 + (b * 0x1_0000 + c * 0x100 + d) && b * 0x1_0000 + c * 0x100 + d < 0x100_0000;
    assert ip / 0x100_0000 == a;
    assert ab % 0x100 == b;
  }

  /** Every address has four bytes. */
  lemma AddressHasBytes(ip: Ip) returns (a: nat, b: nat, c: nat, d: nat)
    ensures HasBytes(ip, a, b, c, d)
  {
    a, b, c, d := Octet(ip, 0), Octet(ip, 1), Octet(ip, 2), Octet(ip, 3);
    assert ip / 0x100 == (ip / 0x1_0000) * 0x100 + c;
    assert ip / 0x1_0000 == a * 0x100 + b;
  }

  // ---------- maps ----------

  /** No two keys have the same value. */
  ghost predicate Injective<A(!new), B(!new)>(m: map<A, B>) {
    forall a, b | a in m && b in m && m[a] == m[b] :: a == b
  }

  // ---------- rewriting and concatenation ----------

  function ReplaceAll(s: string, c: char, sub: string): string {
    if s == "" then "" else (if s[0] == c then sub else [s[0]]) + ReplaceAll(s[1..], c, sub)
  }

  lemma {:induction false} ReplaceAppend(a: string, b: string, c: char, sub: string)
    ensures ReplaceAll(a + b, c, sub) == ReplaceAll(a, c, sub) + ReplaceAll(b, c, sub)
  {
    if a == "" {
      assert a + b == b;
    } else {
      assert (a + b)[1..] == a[1..] + b;
      ReplaceAppend(a[1..], b, c, sub);
    }
  }

  lemma Assoc<T>(a: seq<T>, b: seq<T>, c: seq<T>)
    ensures (a + b) + c == a + (b + c)
  {
  }
}
