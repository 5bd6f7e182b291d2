/** Default names for panels, tubes and flow paths: `next_name` in
    srlife/receiver.py, together with the integer parsing (`int(name)`) and printing
    (`str(n)`) it relies on. */
module Names {
  import opened Wrappers

  predicate IsDigit(c: char) {
    '0' <= c <= '9'
  }

  predicate AllDigits(s: string) {
    forall i :: 0 <= i < |s| ==> IsDigit(s[i])
  }

  function DigitValue(c: char): nat
    requires IsDigit(c)
  {
    c as int - '0' as int
  }

  function DigitChar(d: nat): char
    requires d < 10
  {
    ('0' as int + d) as char
  }

  /** The value of a run of decimal digits, most significant first (leading zeros
      allowed, as `int("007") == 7`). */
  function DigitsValue(s: string): nat
    requires AllDigits(s)
  {
    if s == [] then 0 else DigitsValue(s[..|s| - 1]) * 10 + DigitValue(s[|s| - 1])
  }

  /** `int(s)`: an optional '-' followed by at least one decimal digit; anything
      else is the `ValueError` branch, here `None`. */
  function ParseInt(s: string): (r: Option<int>)
    ensures r.Some? <==> (|s| > 0 && AllDigits(s)) || (|s| > 1 && s[0] == '-' && AllDigits(s[1..]))
    ensures r.Some? && s[0] == '-' ==> r.value <= 0
    ensures r.Some? && s[0] != '-' ==> r.value >= 0
  {
    if |s| > 0 && s[0] == '-' then
      if |s| > 1 && AllDigits(s[1..]) then Some(0 - DigitsValue(s[1..])) else None
    else if |s| > 0 && AllDigits(s) then Some(DigitsValue(s))
    else None
  }

  /** The shortest decimal spelling of `n`. */
  function Digits(n: nat): (s: string)
    ensures |s| > 0 && AllDigits(s)
    ensures (|s| == 1) == (n < 10)
    ensures (s[0] == '0') == (n == 0)
  {
    if n < 10 then [DigitChar(n)] else Digits(n / 10) + [DigitChar(n % 10)]
  }

  /** `str(n)` for an integer. */
  function IntToString(n: int): (s: string)
    ensures |s| > 0 && (s[0] == '-') == (n < 0)
    ensures var m := if n < 0 then s[1..] else s;
      |m| > 0 && AllDigits(m) && (|m| > 1 ==> m[0] != '0')
  {
    if n < 0 then "-" + Digits(-n) else Digits(n)
  }

  lemma {:induction false} DigitsValueOfDigits(n: nat)
    ensures DigitsValue(Digits(n)) == n
  {
    if n >= 10 {
      var s := Digits(n);
      assert s[..|s| - 1] == Digits(n / 10);
      DigitsValueOfDigits(n / 10);
    }
  }

  /** Parsing the spelling of a natural number gives it back. */
  lemma {:induction false} ParseDigits(n: nat)
    ensures ParseInt(Digits(n)) == Some(n)
  {
    var s := Digits(n);
    assert IsDigit(s[0]);
    DigitsValueOfDigits(n);
  }

  /** Parsing '-' followed by the spelling of a natural number gives its negation. */
  lemma {:induction false} ParseMinusDigits(n: nat)
    ensures ParseInt("-" + Digits(n)) == Some(0 - n)
  {
    var s := "-" + Digits(n);
    assert s[1..] == Digits(n);
    DigitsValueOfDigits(n);
  }

  /** `int(str(n)) == n`: printing an integer and parsing it back gives it back. */
  lemma {:induction false} ParseIntToString(n: int)
    ensures ParseInt(IntToString(n)) == Some(n)
  {
    if n < 0 {
      ParseMinusDigits(-n);
    } else {
      ParseDigits(n);
    }
  }

  /** The integers that `next_name` collects in `curr_ints`, in list order. */
  function ParsedInts(names: seq<string>): seq<int> {
    if names == [] then []
    else
      ParsedInts(names[..|names| - 1]) +
      match ParseInt(names[|names| - 1])
      case Some(v) => [v]
      case None => []
  }

  lemma {:induction false} ParsedIntsMembers(names: seq<string>)
    ensures forall v :: v in ParsedInts(names) <==> exists nm :: nm in names && ParseInt(nm) == Some(v)
  {
    if names != [] {
      var init := names[..|names| - 1];
      ParsedIntsMembers(init);
      assert names == init + [names[|names| - 1]];
    }
  }

  lemma {:induction false} ParsedIntsEmpty(names: seq<string>)
    ensures |ParsedInts(names)| == 0 <==> forall nm :: nm in names ==> ParseInt(nm).None?
  {
    if names != [] {
      var init := names[..|names| - 1];
      ParsedIntsEmpty(init);
      assert names == init + [names[|names| - 1]];
    }
  }

  /** Python's `max` over a non-empty list. */
  function Max(xs: seq<int>): (m: int)
    requires |xs| > 0
    ensures m in xs && forall x :: x in xs ==> x <= m
  {
    if |xs| == 1 then xs[0]
    else
      var m' := Max(xs[1..]);
      assert forall x :: x in xs ==> x == xs[0] || x in xs[1..];
      if xs[0] > m' then xs[0] else m'
  }

  /** What `next_name(names)` returns. */
  function NextNameSpec(names: seq<string>): string {
    var ints := ParsedInts(names);
    if |ints| == 0 then IntToString(0) else IntToString(Max(ints) + 1)
  }

  /** The integer that the default name spells: 0 when no name parses as an
      integer, and otherwise one more than the largest name that does. */
  lemma {:induction false} NextNameValue(names: seq<string>)
    ensures ParseInt(NextNameSpec(names)).Some?
    ensures var v := ParseInt(NextNameSpec(names)).value;
      && ((forall nm :: nm in names ==> ParseInt(nm).None?) ==> v == 0)
      && (forall nm :: nm in names && ParseInt(nm).Some? ==> ParseInt(nm).value < v)
      && ((exists nm :: nm in names && ParseInt(nm).Some?) ==>
            exists nm :: nm in names && ParseInt(nm) == Some(v - 1))
  {
    var ints := ParsedInts(names);
    ParsedIntsMembers(names);
    ParsedIntsEmpty(names);
    if |ints| == 0 {
      ParseIntToString(0);
    } else {
      var m := Max(ints);
      ParseIntToString(m + 1);
      forall nm | nm in names && ParseInt(nm).Some? ensures ParseInt(nm).value < m + 1 {
        assert ParseInt(nm).value in ints;
      }
      assert m in ints;
    }
  }

  /** The default name is fresh: it is none of the names already present, whatever
      those names are. */
  lemma {:induction false} NextNameFresh(names: seq<string>)
    ensures NextNameSpec(names) !in names
  {
    NextNameValue(names);
    var r := NextNameSpec(names);
    forall nm | nm in names ensures nm != r {
      if ParseInt(nm).Some? {
        assert ParseInt(nm).value < ParseInt(r).value;
      }
    }
  }

  /** `next_name`: collect the names that parse as integers, then one past their
      maximum, or "0" when there are none. */
  method NextName(names: seq<string>) returns (name: string)
    ensures name == NextNameSpec(names)
    ensures name !in names
  {
    var currInts: seq<int> := [];
    for i := 0 to |names|
      invariant currInts == ParsedInts(names[..i])
    {
      assert names[..i + 1][..i] == names[..i];
      var parsed := ParseInt(names[i]);
      if parsed.Some? {
        currInts := currInts + [parsed.value];
      }
    }
    assert names[..|names|] == names;
    NextNameFresh(names);
    if |currInts| == 0 {
      return IntToString(0);
    }
    return IntToString(Max(currInts) + 1);
  }
}
