/**
 * The behaviour of the Go standard-library string routines the service
 * relies on: `strings.TrimSpace`, `strings.TrimRight`, `strconv.Atoi`
 * and the `%d` verb of `fmt`. Strings are sequences of decoded code points.
 */
module GoStrings {
  import opened Wrappers
  import opened MachineInt

  /**
   * `unicode.IsSpace`: the six ASCII white-space characters, NEL, NBSP and
   * the remaining code points of the Unicode White_Space property.
   */
  predicate IsSpace(c: char) {
    var k := c as int;
    (9 <= k <= 13) || k == 32 || k == 0x85 || k == 0xA0 || k == 0x1680 ||
    (0x2000 <= k <= 0x200A) || k == 0x2028 || k == 0x2029 || k == 0x202F ||
    k == 0x205F || k == 0x3000
  }

  /** Drops the leading white space of `s`. */
  function TrimLeftSpace(s: string): string
  {
    if |s| > 0 && IsSpace(s[0]) then TrimLeftSpace(s[1..]) else s
  }

  /** Drops the trailing white space of `s`. */
  function TrimRightSpace(s: string): string
  {
    if |s| > 0 && IsSpace(s[|s| - 1]) then TrimRightSpace(s[..|s| - 1]) else s
  }

  /** TrimLeftSpace keeps a suffix, removes only white space, and stops at the first other character. */
  lemma {:induction false} TrimLeftSpaceSpec(s: string)
    ensures var r := TrimLeftSpace(s);
            |r| <= |s| && r == s[|s| - |r|..] &&
            (forall i :: 0 <= i < |s| - |r| ==> IsSpace(s[i])) &&
            (r == [] || !IsSpace(r[0]))
    decreases |s|
  {
    if |s| > 0 && IsSpace(s[0]) {
      TrimLeftSpaceSpec(s[1..]);
    }
  }

  /** TrimRightSpace keeps a prefix, removes only white space, and stops at the last other character. */
  lemma {:induction false} TrimRightSpaceSpec(s: string)
    ensures var r := TrimRightSpace(s);
            |r| <= |s| && r == s[..|r|] &&
            (forall i :: |r| <= i < |s| ==> IsSpace(s[i])) &&
            (r == [] || !IsSpace(r[|r| - 1]))
    decreases |s|
  {
    if |s| > 0 && IsSpace(s[|s| - 1]) {
      TrimRightSpaceSpec(s[..|s| - 1]);
    }
  }

  /**
   * `strings.TrimSpace`: both ends' white space removed. It never grows
   * the text, and text that neither starts nor ends with white space is
   * left as it is.
   */
  function TrimSpace(s: string): (r: string)
    ensures |r| <= |s|
    ensures |s| > 0 && !IsSpace(s[0]) && !IsSpace(s[|s| - 1]) ==> r == s
  {
    TrimRightSpaceSpec(s);
    TrimLeftSpaceSpec(TrimRightSpace(s));
    TrimLeftSpace(TrimRightSpace(s))
  }

  /** Neither end of a trimmed string is white space, and it is a slice of the input. */
  lemma TrimSpaceEnds(s: string)
    ensures var r := TrimSpace(s);
            (r == [] || (!IsSpace(r[0]) && !IsSpace(r[|r| - 1]))) &&
            exists i, j :: 0 <= i <= j <= |s| && r == s[i..j]
  {
    var right := TrimRightSpace(s);
    TrimRightSpaceSpec(s);
    TrimLeftSpaceSpec(right);
    var r := TrimLeftSpace(right);
    var i := |right| - |r|;
    assert r == s[i..i + |r|];
    assert 0 <= i <= i + |r| <= |s|;
  }

  /**
   * TrimSpace removes exactly the white space around its input: padding a
   * string whose ends are not white space with white space on either side
   * and trimming gives the string back.
   */
  lemma TrimSpaceOfPadded(pre: string, t: string, post: string)
    requires forall i :: 0 <= i < |pre| ==> IsSpace(pre[i])
    requires forall i :: 0 <= i < |post| ==> IsSpace(post[i])
    requires t == [] || (!IsSpace(t[0]) && !IsSpace(t[|t| - 1]))
    ensures TrimSpace(pre + t + post) == t
  {
    var s := pre + t + post;
    var right := TrimRightSpace(s);
    TrimRightSpaceSpec(s);
    TrimLeftSpaceSpec(right);
    if t == [] {
      assert |right| == 0;
    } else {
      assert s[|pre| + |t| - 1] == t[|t| - 1];
      assert |right| == |pre| + |t|;
      assert right == pre + t;
      var left := TrimLeftSpace(right);
      assert right[|pre|] == t[0];
      assert |left| == |t|;
      assert left == right[|pre|..];
    }
  }

  /** `strings.TrimRight(s, cutset)`: drops every trailing character found in `cutset`. */
  function TrimRight(s: string, cutset: string): (r: string)
    ensures |r| <= |s| && r == s[..|r|]
    ensures forall i :: |r| <= i < |s| ==> s[i] in cutset
    ensures r == [] || r[|r| - 1] !in cutset
  {
    if |s| > 0 && s[|s| - 1] in cutset then TrimRight(s[..|s| - 1], cutset) else s
  }

  predicate IsDigit(c: char) { '0' <= c <= '9' }

  predicate AllDigits(s: string) {
    forall i :: 0 <= i < |s| ==> IsDigit(s[i])
  }

  /** The value of a string of decimal digits, most significant first. */
  function DigitsValue(s: string): nat
    requires AllDigits(s)
  {
    if s == [] then 0
    else DigitsValue(s[..|s| - 1]) * 10 + (s[|s| - 1] as int - '0' as int)
  }

  /** Scans `s` as one or more decimal digits; None at the first other character. */
  function ParseDigits(s: string): Option<nat>
  {
    if s == [] || !IsDigit(s[|s| - 1]) then None
    else
      var d := s[|s| - 1] as int - '0' as int;
      if |s| == 1 then Some(d)
      else
        match ParseDigits(s[..|s| - 1])
        case None => None
        case Some(v) => Some(v * 10 + d)
  }

  /** The scan succeeds exactly on non-empty digit strings, with their value. */
  lemma {:induction false} ParseDigitsSpec(s: string)
    ensures ParseDigits(s).Some? <==> |s| > 0 && AllDigits(s)
    ensures ParseDigits(s).Some? ==> ParseDigits(s).value == DigitsValue(s)
    decreases |s|
  {
    if |s| > 1 {
      var init := s[..|s| - 1];
      ParseDigitsSpec(init);
      assert AllDigits(s) ==> AllDigits(init);
      assert AllDigits(init) && IsDigit(s[|s| - 1]) ==> AllDigits(s);
    } else if |s| == 1 {
      assert s[..0] == [];
    }
  }

  /**
   * `strconv.Atoi` with a 64-bit `int`: an optional sign followed by one
   * or more decimal digits, whose value lies in the 64-bit range; anything
   * else (empty text, stray characters, white space, overflow) is an error.
   */
  function Atoi(s: string): (r: Option<Int64>)
    ensures r.Some? ==> |s| > 0 && IsDigit(s[|s| - 1])
    ensures r.Some? && r.value < 0 ==> s[0] == '-'
  {
    var signed := |s| > 0 && (s[0] == '-' || s[0] == '+');
    var digits := if signed then s[1..] else s;
    match ParseDigits(digits)
    case None => None
    case Some(m) =>
      var v: int := if signed && s[0] == '-' then -(m as int) else m;
      if InInt64(v) then Some(v) else None
  }

  /**
   * Atoi accepts exactly a sign-less or signed non-empty digit string whose
   * value fits in 64 bits, and returns that value.
   */
  lemma AtoiSpec(s: string)
    ensures var signed := |s| > 0 && (s[0] == '-' || s[0] == '+');
            var digits := if signed then s[1..] else s;
            var neg := signed && s[0] == '-';
            Atoi(s).Some? <==>
              |digits| > 0 && AllDigits(digits) &&
              InInt64(if neg then -(DigitsValue(digits) as int) else DigitsValue(digits))
    ensures var signed := |s| > 0 && (s[0] == '-' || s[0] == '+');
            var digits := if signed then s[1..] else s;
            Atoi(s).Some? ==>
              Atoi(s).value == if signed && s[0] == '-' then -(DigitsValue(digits) as int) else DigitsValue(digits)
  {
    var signed := |s| > 0 && (s[0] == '-' || s[0] == '+');
    ParseDigitsSpec(if signed then s[1..] else s);
  }

  function DigitChar(d: nat): (c: char)
    requires d < 10
    ensures IsDigit(c) && c as int - '0' as int == d
  {
    ('0' as int + d) as char
  }

  /** The decimal digits of `n` without leading zeros. */
  function NatDigits(n: nat): (r: string)
    ensures |r| > 0 && AllDigits(r) && DigitsValue(r) == n
    ensures |r| > 1 ==> r[0] != '0'
  {
    if n < 10 then [DigitChar(n)]
    else
      var r := NatDigits(n / 10) + [DigitChar(n % 10)];
      assert r[..|r| - 1] == NatDigits(n / 10);
      r
  }

  /** `fmt`'s `%d` (and `strconv.Itoa`): a minus sign for negatives, then the digits. */
  function Itoa(n: int): (r: string)
    ensures |r| > 0
    ensures r[0] == '-' <==> n < 0
  {
    if n < 0 then "-" + NatDigits(-n) else NatDigits(n)
  }

  /** Formatting with `%d` and parsing back with Atoi gives the number back. */
  lemma AtoiItoa(n: Int64)
    ensures Atoi(Itoa(n)) == Some(n)
  {
    var s := Itoa(n);
    if n < 0 {
      assert s[0] == '-' && s[1..] == NatDigits(-(n as int));
      ParseDigitsSpec(s[1..]);
    } else {
      assert s == NatDigits(n) && IsDigit(s[0]);
      ParseDigitsSpec(s);
    }
  }
}
