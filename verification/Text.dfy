/** Text helpers shared by the models: separator splitting and joining as in Go's
    `strings.Split` / `strings.Join`, and decimal printing and parsing as in `strconv`. */
module Text {

  datatype Option<+T> = None | Some(value: T)

  // ---------------------------------------------------------------- splitting

  function Join(parts: seq<string>, sep: char): string {
    if |parts| == 0 then ""
    else if |parts| == 1 then parts[0]
    else parts[0] + [sep] + Join(parts[1..], sep)
  }

  /** The pieces of `s` between separators; the empty string gives one empty piece. */
  function Split(s: string, sep: char): (r: seq<string>)
    ensures |r| >= 1
    ensures forall i :: 0 <= i < |r| ==> sep !in r[i]
    ensures Join(r, sep) == s
  {
    if s == "" then [""]
    else
      var rest := Split(s[1..], sep);
      if s[0] == sep then
        assert Join([""] + rest, sep) == "" + [sep] + Join(rest, sep) by {
          assert ([""] + rest)[1..] == rest;
        }
        [""] + rest
      else
        var r := Glue(s[0], rest);
        assert Join(r, sep) == [s[0]] + Join(rest, sep) by {
          assert r[1..] == rest[1..];
          if |rest| > 1 {
            assert Join(r, sep) == ([s[0]] + rest[0]) + [sep] + Join(rest[1..], sep);
            assert ([s[0]] + rest[0]) + [sep] + Join(rest[1..], sep)
                == [s[0]] + (rest[0] + [sep] + Join(rest[1..], sep));
          }
        }
        r
  }

  lemma {:induction false} SplitWhole(s: string, sep: char)
    requires sep !in s
    ensures Split(s, sep) == [s]
  {
    if s != "" {
      assert s[0] in s;
      assert forall c :: c in s[1..] ==> c in s;
      SplitWhole(s[1..], sep);
    }
  }

  /** Splitting at one known separator splits both sides independently. */
  lemma {:induction false} SplitConcat(a: string, b: string, sep: char)
    ensures Split(a + [sep] + b, sep) == Split(a, sep) + Split(b, sep)
  {
    var s := a + [sep] + b;
    if a == "" {
      assert s[1..] == b;
    } else {
      assert s[1..] == a[1..] + [sep] + b;
      SplitConcat(a[1..], b, sep);
      Prepend(a[0], Split(a[1..], sep), Split(b, sep));
      assert Split(s, sep) == if a[0] == sep then [""] + (Split(a[1..], sep) + Split(b, sep))
                              else Glue(a[0], Split(a[1..], sep) + Split(b, sep));
    }
  }

  /** One more character in front of the first piece. */
  function Glue(c: char, parts: seq<string>): seq<string>
    requires |parts| >= 1
  {
    [[c] + parts[0]] + parts[1..]
  }

  lemma Prepend(c: char, left: seq<string>, right: seq<string>)
    requires |left| >= 1
    ensures Glue(c, left + right) == Glue(c, left) + right
    ensures [""] + (left + right) == ([""] + left) + right
  {
    assert (left + right)[1..] == left[1..] + right;
  }

  /** Joining separator-free parts loses nothing. */
  lemma {:induction false} SplitJoin(parts: seq<string>, sep: char)
    requires |parts| >= 1
    requires forall i :: 0 <= i < |parts| ==> sep !in parts[i]
    ensures Split(Join(parts, sep), sep) == parts
  {
    SplitWhole(parts[0], sep);
    if |parts| > 1 {
      SplitConcat(parts[0], Join(parts[1..], sep), sep);
      SplitJoin(parts[1..], sep);
    }
  }

  // ---------------------------------------------------------------- decimals

  const MAX_INT64: int := 0x7fff_ffff_ffff_ffff
  const MIN_INT64: int := -0x8000_0000_0000_0000

  type Int64 = x: int | MIN_INT64 <= x <= MAX_INT64

  function Digit(d: int): char
    requires 0 <= d < 10
  {
    '0' + d as char
  }

  predicate IsDigit(c: char) { '0' <= c <= '9' }

  function Digits(n: nat): (s: string)
    ensures s != "" && forall c :: c in s ==> IsDigit(c)
  {
    if n < 10 then [Digit(n)] else Digits(n / 10) + [Digit(n % 10)]
  }

  function Itoa(n: int): (s: string) {
    if n < 0 then "-" + Digits(-n) else Digits(n)
  }

  /** The number written by a string of digits. */
  function Value(s: string): nat
    requires forall c :: c in s ==> IsDigit(c)
  {
    if s == "" then 0
    else
      var last := s[|s| - 1];
      assert last in s && IsDigit(last);
      10 * Value(s[..|s| - 1]) + (last as int - '0' as int)
  }

  /** What `strconv.ParseInt(s, 10, 64)` hands back: the value and whether the error is nil. */
  datatype Parsed = Parsed(value: Int64, ok: bool)

  function Clamp(n: int): Parsed {
    if n > MAX_INT64 then Parsed(MAX_INT64, false)
    else if n < MIN_INT64 then Parsed(MIN_INT64, false)
    else Parsed(n, true)
  }

  function ParseInt(s: string): Parsed {
    var signed := s != "" && (s[0] == '-' || s[0] == '+');
    var body := if signed then s[1..] else s;
    if body == "" || !(forall c :: c in body ==> IsDigit(c)) then Parsed(0, false)
    else Clamp(if signed && s[0] == '-' then -(Value(body) as int) else Value(body))
  }

  /** Digits are read as the number they write, with or without a sign, while it fits in 64 bits; beyond that
      the nearest 64-bit integer comes back with an error. */
  lemma ParseDigits(d: string)
    requires d != "" && forall c :: c in d ==> IsDigit(c)
    ensures ParseInt(d) == ParseInt("+" + d)
    ensures ParseInt(d).ok <==> Value(d) <= 0x7FFF_FFFF_FFFF_FFFF
    ensures ParseInt(d).value == if ParseInt(d).ok then Value(d) else 0x7FFF_FFFF_FFFF_FFFF
    ensures ParseInt("-" + d).ok <==> Value(d) <= 0x8000_0000_0000_0000
    ensures ParseInt("-" + d).value == if ParseInt("-" + d).ok then -(Value(d) as int) else -0x8000_0000_0000_0000
  {
    hide Value;
    assert d[0] in d;
    assert ("+" + d)[1..] == d && ("-" + d)[1..] == d;
  }

  /** Anything else is an error and reads as zero: no digit at all, or a foreign character somewhere. */
  lemma ParseJunk(s: string, i: nat)
    requires s == "" || s == "+" || s == "-"
          || (i < |s| && !IsDigit(s[i]) && (i == 0 ==> s[0] != '+' && s[0] != '-'))
    ensures ParseInt(s) == Parsed(0, false)
  {
    hide Value;
    if i < |s| {
      assert s[i] in s;
      assert i > 0 ==> s[i] == s[1..][i - 1];
    }
  }

  lemma {:induction false} ValueDigits(n: nat)
    ensures Value(Digits(n)) == n
  {
    if n >= 10 {
      ValueDigits(n / 10);
      var s := Digits(n);
      assert s[..|s| - 1] == Digits(n / 10);
    } else {
      assert Digits(n)[..0] == "";
    }
  }

  /** Printing a 64-bit integer and parsing it back is the identity, for every value. */
  lemma ParseItoa(n: Int64)
    ensures ParseInt(Itoa(n)) == Parsed(n, true)
  {
    if n < 0 {
      var m: int := n;
      ValueDigits(-m);
      assert Itoa(n)[1..] == Digits(-m);
    } else {
      ValueDigits(n);
      var s := Itoa(n);
      assert s[0] in s;
    }
  }

  lemma ItoaInjective(a: Int64, b: Int64)
    requires Itoa(a) == Itoa(b)
    ensures a == b
  {
    ParseItoa(a);
    ParseItoa(b);
  }
}
