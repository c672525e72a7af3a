/** The text helpers of the configuration loader. Characters are bytes of the C locale. */
module ConfigText {

  datatype Option<T> = None | Some(value: T)

  predicate IsSpace(c: char) {
    c == ' ' || 9 <= c as int <= 13
  }

  predicate Blank(s: string) {
    forall i | 0 <= i < |s| :: IsSpace(s[i])
  }

  function FirstVisible(s: string, i: nat): (r: nat)
    requires i <= |s|
    ensures i <= r <= |s| && (forall k | i <= k < r :: IsSpace(s[k])) && (r < |s| ==> !IsSpace(s[r]))
    decreases |s| - i
  {
    if i < |s| && IsSpace(s[i]) then FirstVisible(s, i + 1) else i
  }

  function LastVisible(s: string, i: nat, j: nat): (r: nat)
    requires i <= j <= |s|
    ensures i <= r <= j && (forall k | r <= k < j :: IsSpace(s[k])) && (r > i ==> !IsSpace(s[r - 1]))
  {
    if j > i && IsSpace(s[j - 1]) then LastVisible(s, i, j - 1) else j
  }

  /** Where the leading white space ends. */
  function Lead(s: string): (i: nat)
    ensures i <= |s| && (forall k | 0 <= k < i :: IsSpace(s[k])) && (i < |s| ==> !IsSpace(s[i]))
  {
    FirstVisible(s, 0)
  }

  /** Where the trailing white space begins. */
  function Trail(s: string): (j: nat)
    ensures Lead(s) <= j <= |s| && (forall k | j <= k < |s| :: IsSpace(s[k])) && (j > Lead(s) ==> !IsSpace(s[j - 1]))
  {
    LastVisible(s, Lead(s), |s|)
  }

  function TrimLeft(s: string): string {
    s[Lead(s)..]
  }

  function Trimmed(s: string): string {
    s[Lead(s)..Trail(s)]
  }

  /** No white space at either end. */
  predicate Tight(s: string) {
    s == [] || (!IsSpace(s[0]) && !IsSpace(s[|s| - 1]))
  }

  /** Trimming takes white space off both ends and nothing else. */
  lemma TrimmedIsTheCore(s: string) returns (i: nat, j: nat)
    ensures i <= j <= |s| && Trimmed(s) == s[i..j]
    ensures forall k | 0 <= k < i || j <= k < |s| :: IsSpace(s[k])
    ensures Tight(Trimmed(s))
  {
    i, j := Lead(s), Trail(s);
    hide Lead, Trail, IsSpace;
  }

  /** ... and any tight text between two blank ones is the trimmed one. */
  lemma TrimmedOf(before: string, core: string, after: string)
    requires Blank(before) && Tight(core) && Blank(after)
    ensures Trimmed(before + core + after) == core
  {
    var s := before + core + after;
    assert forall k | 0 <= k < |s| ::
        s[k] ==
        if k < |before| then before[k]
        else if k < |before| + |core| then core[k - |before|]
        else after[k - |before| - |core|];
    hide IsSpace, Lead, Trail;
    if core == "" {
      assert Lead(s) == |s|;
    } else {
      assert s[|before|] == core[0] && s[|before| + |core| - 1] == core[|core| - 1];
      assert Lead(s) == |before|;
      assert Trail(s) == |before| + |core|;
    }
  }

  lemma TightIsTrimmed(s: string)
    requires Tight(s)
    ensures Trimmed(s) == s
  {
    TrimmedOf("", s, "");
    hide *;
    assert "" + s + "" == s;
  }

  method Trim(value: string) returns (trimmed: string)
    ensures trimmed == Trimmed(value)
  {
    hide IsSpace, Lead, Trail;
    var begin := 0;
    while begin != |value| && IsSpace(value[begin])
      invariant 0 <= begin <= |value| && forall k | 0 <= k < begin :: IsSpace(value[k])
    {
      begin := begin + 1;
    }
    assert begin == Lead(value);
    var end := |value|;
    while end != begin && IsSpace(value[end - 1])
      invariant begin <= end <= |value| && forall k | end <= k < |value| :: IsSpace(value[k])
    {
      end := end - 1;
    }
    assert end == Trail(value);
    trimmed := value[begin..end];
  }

  function LowerChar(c: char): (r: char)
    ensures !('A' <= r <= 'Z') && (r as int == c as int + 32 || (r == c && !('A' <= c <= 'Z')))
  {
    if 'A' <= c <= 'Z' then c - 'A' + 'a' else c
  }

  function Lower(s: string): (r: string)
    ensures |r| == |s| && forall i | 0 <= i < |s| :: r[i] == LowerChar(s[i])
  {
    seq(|s|, i requires 0 <= i < |s| => LowerChar(s[i]))
  }

  lemma LowerTwice(s: string)
    ensures Lower(Lower(s)) == Lower(s)
  {
  }

  lemma LowerKeeps(s: string)
    requires forall i | 0 <= i < |s| :: LowerChar(s[i]) == s[i]
    ensures Lower(s) == s
  {
  }

  /** Position of the first character in `stops`, or the length. */
  function FindFirst(s: string, stops: set<char>): (i: nat)
    ensures i <= |s| && (forall k | 0 <= k < i :: s[k] !in stops) && (i < |s| ==> s[i] in stops)
  {
    if s == [] || s[0] in stops then 0 else 1 + FindFirst(s[1..], stops)
  }

  // Integers.

  const LONG_MIN := -0x8000_0000_0000_0000
  const LONG_MAX := 0x7fff_ffff_ffff_ffff

  predicate IsDigit(c: char) {
    '0' as int <= c as int <= '9' as int
  }

  predicate Digits(s: string) {
    forall i | 0 <= i < |s| :: IsDigit(s[i])
  }

  function Decimal(s: string): nat
    requires Digits(s)
  {
    if s == [] then 0
    else
      assert IsDigit(s[|s| - 1]);
      10 * Decimal(s[..|s| - 1]) + (s[|s| - 1] as int - '0' as int)
  }

  function Numeral(n: nat): (s: string)
    ensures s != [] && Digits(s)
  {
    (if n < 10 then [] else Numeral(n / 10)) + [(n % 10 + '0' as int) as char]
  }

  lemma {:induction false} NumeralRoundTrip(n: nat)
    ensures Decimal(Numeral(n)) == n
  {
    var s := Numeral(n);
    assert s[..|s| - 1] == if n < 10 then [] else Numeral(n / 10);
    if n >= 10 {
      NumeralRoundTrip(n / 10);
    }
  }

  /** The integer a whole text denotes: white space, an optional sign, at least one digit. */
  function Integer(value: string): Option<int> {
    var t := TrimLeft(value);
    var digits := if t != [] && (t[0] == '-' || t[0] == '+') then t[1..] else t;
    if digits == [] || !Digits(digits) then None
    else
      var magnitude: int := Decimal(digits);
      Some(if t[0] == '-' then -magnitude else magnitude)
  }

  function InRange(n: Option<int>, minimum: int, maximum: int): Option<int> {
    if n.Some? && minimum <= n.value <= maximum && LONG_MIN <= n.value <= LONG_MAX then n else None
  }

  method SkipSpaces(value: string) returns (i: nat)
    ensures i == Lead(value)
  {
    i := 0;
    while i < |value| && IsSpace(value[i])
      invariant i <= |value| && forall k | 0 <= k < i :: IsSpace(value[k])
    {
      i := i + 1;
    }
  }

  method ReadDigits(value: string, first: nat) returns (i: nat, magnitude: nat)
    requires first <= |value|
    ensures first <= i <= |value| && Digits(value[first..i]) && magnitude == Decimal(value[first..i])
    ensures i == |value| <==> Digits(value[first..])
  {
    i, magnitude := first, 0;
    while i < |value| && IsDigit(value[i])
      invariant first <= i <= |value| && Digits(value[first..i]) && magnitude == Decimal(value[first..i])
    {
      assert value[first..i + 1] == value[first..i] + [value[i]];
      magnitude := 10 * magnitude + (value[i] as int - '0' as int);
      i := i + 1;
    }
    if i == |value| {
      assert value[first..i] == value[first..];
    } else {
      assert value[first..][i - first] == value[i];
    }
  }

  /** The scan of strtol, then the checks: everything consumed, no overflow, within the limits. */
  method ParseLong(value: string, minimum: int, maximum: int) returns (r: Option<int>)
    ensures r == InRange(Integer(value), minimum, maximum)
  {
    hide Lead, Digits, Decimal, IsSpace;
    var first: nat := SkipSpaces(value);
    var negative := first < |value| && value[first] == '-';
    if first < |value| && (value[first] == '-' || value[first] == '+') {
      assert value[first..][1..] == value[first + 1..];
      first := first + 1;
    }
    var end, magnitude := ReadDigits(value, first);
    if end == first {
      assert end == |value| ==> value[first..] == [];
      return None;
    }
    var result: int := magnitude;
    if negative {
      result := -result;
    }
    if result < LONG_MIN || result > LONG_MAX {
      assert end == |value| ==> value[first..end] == value[first..];
      return None;
    }
    assert end == |value| ==> value[first..end] == value[first..];
    if end != |value| || result < minimum || result > maximum {
      return None;
    }
    return Some(result);
  }

  lemma SpacesAre(c: char)
    ensures IsSpace(c) <==> c in {' ', '\t', '\n', '\r', 11 as char, 12 as char}
  {
  }

  lemma LeadIs(blank: string, rest: string)
    requires Blank(blank) && rest != "" && !IsSpace(rest[0])
    ensures TrimLeft(blank + rest) == rest
  {
    var s := blank + rest;
    assert s[|blank|] == rest[0];
    assert forall k | 0 <= k < |blank| :: s[k] == blank[k];
    assert Lead(s) == |blank|;
    assert s[|blank|..] == rest;
  }

  /** White space, one sign or none, and digits to the end: these texts denote an integer, */
  lemma IntegerMeans(blank: string, sign: string, digits: string)
    requires Blank(blank) && (sign == "" || sign == "+" || sign == "-") && digits != "" && Digits(digits)
    ensures
      var n: int := Decimal(digits);
      Integer(blank + (sign + digits)) == Some(if sign == "-" then -n else n)
  {
    hide Lead, Decimal, Blank;
    var rest := sign + digits;
    assert IsDigit(digits[0]) && !IsSpace(rest[0]);
    LeadIs(blank, rest);
    if sign == "" {
      assert rest == digits;
    } else {
      assert rest[0] == sign[0] && rest[1..] == digits;
    }
  }

  /** and no others do. */
  lemma IntegerOnly(value: string) returns (blank: string, sign: string, digits: string)
    requires Integer(value).Some?
    ensures value == blank + (sign + digits) && Blank(blank)
    ensures (sign == "" || sign == "+" || sign == "-") && digits != "" && Digits(digits)
  {
    var t := TrimLeft(value);
    blank := value[..Lead(value)];
    sign := if t[0] == '-' || t[0] == '+' then t[..1] else "";
    digits := t[|sign|..];
    assert t == sign + digits && value == blank + t;
  }
}
