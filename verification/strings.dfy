/** The `std::string` operations that `ConfigLoader::trim` and `ConfigLoader::load`
    rely on (`find_first_not_of(" \t")`, `find_last_not_of(" \t")`, `find_first_of`,
    `substr`), the `trim` helper itself, and decimal rendering for `std::to_string`.
    A `None` result of a search stands for `std::string::npos`; a `None` result of
    `Substr` or `Trim` stands for the `std::out_of_range` that `substr` throws. */
module Strings {
  import opened Wrappers

  predicate IsBlank(c: char) {
    c == ' ' || c == '\t'
  }

  predicate AllBlank(s: string) {
    forall i :: 0 <= i < |s| ==> IsBlank(s[i])
  }

  /** The first index at or after `k` that holds something other than a blank. */
  function FirstNonBlankFrom(s: string, k: nat): (r: Option<nat>)
    requires k <= |s|
    ensures r.None? <==> forall i :: k <= i < |s| ==> IsBlank(s[i])
    ensures r.Some? ==> k <= r.value < |s| && !IsBlank(s[r.value])
    ensures r.Some? ==> forall i :: k <= i < r.value ==> IsBlank(s[i])
    decreases |s| - k
  {
    if k == |s| then None
    else if !IsBlank(s[k]) then Some(k)
    else FirstNonBlankFrom(s, k + 1)
  }

  /** The last index below `k` that holds something other than a blank. */
  function LastNonBlankBelow(s: string, k: nat): (r: Option<nat>)
    requires k <= |s|
    ensures r.None? <==> forall i :: 0 <= i < k ==> IsBlank(s[i])
    ensures r.Some? ==> r.value < k && !IsBlank(s[r.value])
    ensures r.Some? ==> forall i :: r.value < i < k ==> IsBlank(s[i])
  {
    if k == 0 then None
    else if !IsBlank(s[k - 1]) then Some(k - 1)
    else LastNonBlankBelow(s, k - 1)
  }

  /** `s.find_first_not_of(" \t")`: npos exactly for a blank string,
      otherwise a non-blank position with only blanks before it. */
  function FindFirstNotBlank(s: string): (r: Option<nat>)
    ensures r.None? <==> AllBlank(s)
    ensures r.Some? ==> r.value < |s| && !IsBlank(s[r.value])
    ensures r.Some? ==> forall i :: 0 <= i < r.value ==> IsBlank(s[i])
  {
    FirstNonBlankFrom(s, 0)
  }

  /** `s.find_last_not_of(" \t")`: npos exactly for a blank string,
      otherwise a non-blank position with only blanks after it. */
  function FindLastNotBlank(s: string): (r: Option<nat>)
    ensures r.None? <==> AllBlank(s)
    ensures r.Some? ==> r.value < |s| && !IsBlank(s[r.value])
    ensures r.Some? ==> forall i :: r.value < i < |s| ==> IsBlank(s[i])
  {
    LastNonBlankBelow(s, |s|)
  }

  /** `s.find_first_of(c)` for a single character `c`. */
  function FindFirst(s: string, c: char): (r: Option<nat>)
    ensures r.None? <==> c !in s
    ensures r.Some? ==> r.value < |s| && s[r.value] == c && c !in s[..r.value]
  {
    if |s| == 0 then None
    else if s[0] == c then Some(0)
    else match FindFirst(s[1..], c)
      case None => None
      case Some(i) =>
        assert s[..i + 1] == [s[0]] + s[1..][..i];
        Some(i + 1)
  }

  /** The first occurrence is the one with none before it. */
  lemma FindFirstAt(s: string, c: char, i: nat)
    requires i < |s| && s[i] == c && c !in s[..i]
    ensures FindFirst(s, c) == Some(i)
  {
    assert s[i] in s;
  }

  /** `s.substr(pos, count)`: the characters from `pos` on, at most `count` of them
      (all of them when `count` is `npos`, here `None`); `std::out_of_range`
      (here a `None` result) when `pos` lies past the end. */
  function Substr(s: string, pos: nat, count: Option<nat>): (r: Option<string>)
    ensures r.Some? <==> pos <= |s|
    ensures r.Some? ==> r.value <= s[pos..]
    ensures r.Some? && count.Some? ==> |r.value| == if count.value < |s| - pos then count.value else |s| - pos
    ensures r.Some? && count.None? ==> r.value == s[pos..]
  {
    if pos > |s| then None
    else if count.Some? && count.value < |s| - pos then Some(s[pos..pos + count.value])
    else Some(s[pos..])
  }

  /** `ConfigLoader::trim`, exactly as written: the substring starts at the first
      non-blank character, but its length argument is `end + 1` (the position just
      past the last non-blank character), not `end + 1 - begin`, unless the last
      character of `s` is itself non-blank, in which case it is `npos`. An empty or
      all-blank `s` makes `begin` be `npos`, and `substr` throws. */
  function Trim(s: string): (r: Option<string>)
    ensures r.None? <==> AllBlank(s)
    ensures r.Some? ==> FindFirstNotBlank(s).Some? && FindLastNotBlank(s).Some?
    ensures r.Some? ==>
              var b, e := FindFirstNotBlank(s).value, FindLastNotBlank(s).value;
              // it starts at `begin`, keeps everything up to `end`, and whatever
              // else it keeps is blank
              && b <= e
              && r.value <= s[b..]
              && s[b..e + 1] <= r.value
              && AllBlank(r.value[e + 1 - b..])
  {
    match FindFirstNotBlank(s)
    case None => None
    case Some(begin) =>
      var end := FindLastNotBlank(s).value;
      assert !IsBlank(s[begin]) && begin <= end;
      var count := if end == |s| - 1 then None else Some(end + 1);
      var r := Substr(s, begin, count);
      assert |r.value| >= end + 1 - begin;
      TrimmedShape(s, begin, end, r.value);
      r
  }

  /** A prefix of `s[b..]` that reaches past the last non-blank `e` consists of
      `s[b..e + 1]` followed by blanks. */
  lemma TrimmedShape(s: string, b: nat, e: nat, t: string)
    requires FindLastNotBlank(s) == Some(e) && b <= e
    requires t <= s[b..] && |t| >= e + 1 - b
    ensures s[b..e + 1] <= t && AllBlank(t[e + 1 - b..])
  {
    var tail := t[e + 1 - b..];
    forall i | 0 <= i < |tail|
      ensures IsBlank(tail[i])
    {
      assert tail[i] == s[e + 1 + i];
    }
  }

  /** What `trim` is evidently meant to return: `s` without its leading and
      trailing blanks. */
  function Stripped(s: string): (r: string)
    requires !AllBlank(s)
    ensures |r| > 0 && !IsBlank(r[0]) && !IsBlank(r[|r| - 1])
  {
    s[FindFirstNotBlank(s).value..FindLastNotBlank(s).value + 1]
  }

  /** `s` is its stripped core with only blanks on either side. */
  lemma StrippedSpan(s: string)
    requires !AllBlank(s)
    ensures var b, e := FindFirstNotBlank(s).value, FindLastNotBlank(s).value;
            && s == s[..b] + Stripped(s) + s[e + 1..]
            && AllBlank(s[..b]) && AllBlank(s[e + 1..])
  {
    var b, e := FindFirstNotBlank(s).value, FindLastNotBlank(s).value;
    assert s == s[..b] + s[b..e + 1] + s[e + 1..];
  }

  /** The result of `trim` has length min(end + 1, |s| - begin). */
  lemma TrimLength(s: string)
    requires !AllBlank(s)
    ensures var b, e := FindFirstNotBlank(s).value, FindLastNotBlank(s).value;
            |Trim(s).value| == if e + 1 < |s| - b then e + 1 else |s| - b
  {
  }

  /** When the last character of `s` is not blank, `trim` returns the whole
      suffix of `s` from its first non-blank character. */
  lemma TrimNonBlankEnd(s: string)
    requires |s| > 0 && !IsBlank(s[|s| - 1])
    ensures Trim(s) == Some(s[FindFirstNotBlank(s).value..])
  {
  }

  /** When `s` has no leading blank, `trim` drops exactly its trailing blanks. */
  lemma TrimNoLeadingBlank(s: string)
    requires |s| > 0 && !IsBlank(s[0])
    ensures Trim(s) == Some(s[..FindLastNotBlank(s).value + 1])
  {
    assert FindFirstNotBlank(s) == Some(0);
    TrimLength(s);
    var e, r := FindLastNotBlank(s).value, Trim(s).value;
    assert |r| == e + 1 && r <= s[0..];
    assert s[0..] == s;
    assert r == s[..e + 1];
    assert Trim(s) == Some(r);
  }

  /** `trim` returns the stripped string exactly when `s` has no leading blank or
      no trailing blank; with blanks on both sides it keeps some trailing ones. */
  lemma TrimIsStrippedIff(s: string)
    requires !AllBlank(s)
    ensures Trim(s) == Some(Stripped(s)) <==>
              (!IsBlank(s[0]) || !IsBlank(s[|s| - 1]))
  {
    var b, e := FindFirstNotBlank(s).value, FindLastNotBlank(s).value;
    if IsBlank(s[0]) && IsBlank(s[|s| - 1]) {
      assert b > 0 && e < |s| - 1;
      assert |Trim(s).value| > |Stripped(s)|;
    } else if !IsBlank(s[0]) {
      TrimNoLeadingBlank(s);
    } else {
      TrimNonBlankEnd(s);
      assert FindLastNotBlank(s) == Some(|s| - 1);
      assert s[b..] == s[b..e + 1];
    }
  }

  /** The blank-surrounded single character shows the difference. */
  lemma TrimKeepsTrailingBlank()
    ensures Trim(" a ") == Some("a ")
  {
    assert FindFirstNotBlank(" a ") == Some(1);
    assert FindLastNotBlank(" a ") == Some(1);
  }

  /** `std::string(n, ' ')` */
  function Spaces(n: nat): (r: string)
    ensures |r| == n && forall i :: 0 <= i < n ==> r[i] == ' '
  {
    seq(n, _ => ' ')
  }

  function Digit(d: nat): (c: char)
    requires d < 10
    ensures '0' <= c <= '9'
  {
    "0123456789"[d]
  }

  function DigitValue(c: char): nat
    requires '0' <= c <= '9'
  {
    (c - '0') as nat
  }

  /** The decimal numeral of `n`, without leading zeros. */
  function NatToString(n: nat): (r: string)
    ensures |r| > 0 && forall i :: 0 <= i < |r| ==> '0' <= r[i] <= '9'
    ensures |r| > 1 ==> r[0] != '0'
  {
    if n < 10 then [Digit(n)] else NatToString(n / 10) + [Digit(n % 10)]
  }

  /** The value of a numeral read most significant digit first. */
  function NumeralValue(s: string): nat
    requires forall i :: 0 <= i < |s| ==> '0' <= s[i] <= '9'
  {
    if |s| == 0 then 0 else NumeralValue(s[..|s| - 1]) * 10 + DigitValue(s[|s| - 1])
  }

  /** Reading back a rendered numeral gives the number. */
  lemma {:induction false} NatToStringRoundTrip(n: nat)
    ensures NumeralValue(NatToString(n)) == n
  {
    var r := NatToString(n);
    if n >= 10 {
      NatToStringRoundTrip(n / 10);
      assert r[..|r| - 1] == NatToString(n / 10);
    }
  }

  predicate IsNumeral(s: string) {
    |s| > 0 && (forall i :: 0 <= i < |s| ==> '0' <= s[i] <= '9') && (|s| > 1 ==> s[0] != '0')
  }

  /** `std::to_string(int)` */
  function IntToString(n: int): (r: string)
    ensures |r| > 0
    ensures n >= 0 <==> r[0] != '-'
  {
    if n < 0 then "-" + NatToString(-n) else NatToString(n)
  }

  /** After the optional '-', the rendering is the decimal numeral of the
      magnitude, without leading zeros. */
  lemma IntToStringDigits(n: int)
    ensures n >= 0 ==> IsNumeral(IntToString(n)) && NumeralValue(IntToString(n)) == n
    ensures n < 0 ==> IsNumeral(IntToString(n)[1..]) && NumeralValue(IntToString(n)[1..]) == -n
  {
    var m := if n < 0 then -n else n;
    NatToStringRoundTrip(m);
    if n < 0 {
      assert IntToString(n)[1..] == NatToString(m);
    }
  }
}
