/** The two pieces of the C++ library that address texts go through:
    splitting with `getline` and reading a number with `stoi`. */
module Text {

  datatype Option<T> = None | Some(value: T)

  /** Where `d` first occurs, or the length. */
  function Find(s: string, d: char): (i: nat)
    ensures i <= |s| && (i < |s| ==> s[i] == d) && forall j | 0 <= j < i :: s[j] != d
  {
    if s == "" || s[0] == d then 0 else 1 + Find(s[1..], d)
  }

  /** Repeated `getline(ss, part, d)`: an empty rest gives no further part. */
  function Split(s: string, d: char): seq<string>
    decreases |s|
  {
    if s == "" then []
    else
      var i := Find(s, d);
      if i == |s| then [s] else [s[..i]] + Split(s[i + 1..], d)
  }

  predicate IsSpace(c: char) {
    c in {' ', '\t', '\n', '\r', '\U{0B}', '\U{0C}'}
  }

  predicate IsDigit(c: char) {
    '0' <= c <= '9'
  }

  function SkipSpace(s: string): string {
    if s != "" && IsSpace(s[0]) then SkipSpace(s[1..]) else s
  }

  /** How many digits `s` begins with. */
  function DigitCount(s: string): (n: nat)
    ensures n <= |s| && forall i | 0 <= i < n :: IsDigit(s[i])
  {
    if s != "" && IsDigit(s[0]) then 1 + DigitCount(s[1..]) else 0
  }

  function Number(digits: string): nat
    requires forall c | c in digits :: IsDigit(c)
  {
    if digits == "" then 0
    else
      var k := |digits| - 1;
      assert digits[k] in digits && IsDigit(digits[k]);
      10 * Number(digits[..k]) + (digits[k] as int - '0' as int)
  }

  /** `std::stoi`: `None` where it throws. */
  function Stoi(s: string): Option<int> {
    var t := SkipSpace(s);
    var negative := t != "" && t[0] == '-';
    var u := if t != "" && (t[0] == '-' || t[0] == '+') then t[1..] else t;
    var n := DigitCount(u);
    if n == 0 then None
    else
      var value: int := Number(u[..n]);
      var v := if negative then -value else value;
      if -0x8000_0000 <= v < 0x8000_0000 then Some(v) else None
  }

  /** The usual decimal form. */
  function Decimal(n: nat): (s: string)
    ensures s != "" && forall c | c in s :: IsDigit(c)
  {
    (if n < 10 then "" else Decimal(n / 10)) + [(n % 10 + '0' as int) as char]
  }

  lemma {:induction false} NumberOfDecimal(n: nat)
    ensures Number(Decimal(n)) == n
  {
    var s := Decimal(n);
    assert s[..|s| - 1] == if n < 10 then "" else Decimal(n / 10);
    if n >= 10 {
      NumberOfDecimal(n / 10);
    }
  }

  lemma {:induction false} AllDigits(s: string)
    requires forall c | c in s :: IsDigit(c)
    ensures DigitCount(s) == |s|
  {
    if s != "" {
      assert s[0] in s;
      AllDigits(s[1..]);
    }
  }

  /** Reading back what was printed. */
  lemma StoiOfDecimal(n: nat)
    requires n < 0x8000_0000
    ensures Stoi(Decimal(n)) == Some(n)
  {
    hide Decimal, Number, DigitCount;
    var s := Decimal(n);
    assert s[0] in s && IsDigit(s[0]);
    assert SkipSpace(s) == s;
    AllDigits(s);
    NumberOfDecimal(n);
    assert s[..|s|] == s;
  }

  lemma {:induction false} SpacesSkipped(spaces: string, s: string)
    requires forall c | c in spaces :: IsSpace(c)
    ensures SkipSpace(spaces + s) == SkipSpace(s)
  {
    if spaces == "" {
      assert spaces + s == s;
    } else {
      assert spaces[0] in spaces && (spaces + s)[1..] == spaces[1..] + s;
      SpacesSkipped(spaces[1..], s);
    }
  }

  lemma {:induction false} DigitsCounted(d: string, tail: string)
    requires (forall c | c in d :: IsDigit(c)) && (tail == "" || !IsDigit(tail[0]))
    ensures DigitCount(d + tail) == |d|
  {
    if d == "" {
      assert d + tail == tail;
    } else {
      assert d[0] in d && (d + tail)[1..] == d[1..] + tail;
      DigitsCounted(d[1..], tail);
    }
  }

  lemma SignTaken(sign: string, u: string)
    requires sign in {"", "+", "-"} && u != "" && IsDigit(u[0])
    ensures var t := sign + u;
            && t != "" && SkipSpace(t) == t && (t[0] == '-' <==> sign == "-")
            && (if t[0] == '-' || t[0] == '+' then t[1..] else t) == u
  {
    var t := sign + u;
    assert sign == "" ==> t == u;
    assert sign != "" ==> t[0] == sign[0] && t[1..] == u;
  }

  /** What `stoi` takes: white space, a sign, digits, and anything behind them; what
      does not fit into 32 bits with a sign is refused, ... */
  lemma StoiReads(spaces: string, sign: string, n: nat, tail: string)
    requires (forall c | c in spaces :: IsSpace(c)) && sign in {"", "+", "-"} && (tail == "" || !IsDigit(tail[0]))
    ensures var k: int := n;
            var v := if sign == "-" then -k else k;
            Stoi(spaces + (sign + (Decimal(n) + tail))) == if -0x8000_0000 <= v < 0x8000_0000 then Some(v) else None
  {
    hide Decimal, Number, DigitCount, SkipSpace;
    var d := Decimal(n);
    var u := d + tail;
    assert d[0] in d && IsDigit(d[0]) && u[0] == d[0];
    SignTaken(sign, u);
    SpacesSkipped(spaces, sign + u);
    DigitsCounted(d, tail);
    assert u[..|d|] == d;
    NumberOfDecimal(n);
  }

  /** ... and so is what has no digit there. */
  lemma StoiNeedsDigits(spaces: string, sign: string, tail: string)
    requires (forall c | c in spaces :: IsSpace(c)) && sign in {"", "+", "-"}
    requires tail == "" || (!IsDigit(tail[0]) && (sign == "" ==> !IsSpace(tail[0]) && tail[0] !in {'+', '-'}))
    ensures Stoi(spaces + (sign + tail)) == None
  {
    var t := sign + tail;
    SpacesSkipped(spaces, t);
    assert sign == "" ==> t == tail;
    assert sign != "" ==> t[0] == sign[0] && t[1..] == tail;
    assert SkipSpace(t) == t;
  }

  lemma {:induction false} NoDelimiter(s: string, d: char)
    requires d !in s
    ensures Find(s, d) == |s|
    ensures s != "" ==> Split(s, d) == [s]
  {
    if s != "" {
      assert s[0] in s;
      NoDelimiter(s[1..], d);
    }
  }

  lemma {:induction false} FindFirst(s: string, t: string, d: char)
    requires d !in s
    ensures Find(s + [d] + t, d) == |s|
  {
    if s != "" {
      assert s[0] in s;
      assert (s + [d] + t)[1..] == s[1..] + [d] + t;
      FindFirst(s[1..], t, d);
    }
  }

  /** A delimiter at the end begins no further part. */
  lemma NoLastPart(s: string, d: char)
    requires d !in s
    ensures Split("", d) == [] && Split(s + [d], d) == [s]
  {
    SplitFirst(s, "", d);
    assert s + [d] + "" == s + [d] && [s] + [] == [s];
  }

  /** The first part and the rest. */
  lemma SplitFirst(s: string, t: string, d: char)
    requires d !in s
    ensures Split(s + [d] + t, d) == [s] + Split(t, d)
  {
    FindFirst(s, t, d);
    var u := s + [d] + t;
    assert u[..|s|] == s && u[|s| + 1..] == t;
  }
}
