/** Offsets of operation pages as strings (database.go).  Heights are 64-bit signed, indexes
    64-bit unsigned. */
module Offsets {
  import opened Basics

  const MIN_INT64: int := -0x8000_0000_0000_0000
  const MAX_INT64: int := 0x7fff_ffff_ffff_ffff
  const MAX_UINT64: int := 0xffff_ffff_ffff_ffff

  function Digit(d: nat): char
    requires d < 10
  {
    ('0' as int + d) as char
  }

  predicate IsDigit(c: char) { '0' <= c <= '9' }

  function FormatUint(n: nat): (s: string)
    ensures s != "" && forall i :: 0 <= i < |s| ==> IsDigit(s[i])
  {
    if n < 10 then [Digit(n)] else FormatUint(n / 10) + [Digit(n % 10)]
  }

  function FormatInt(n: int): string { if n < 0 then "-" + FormatUint(-n) else FormatUint(n) }

  /** The value of a nonempty string of digits. */
  function ParseDigits(s: string): Option<nat> {
    if s == "" || !IsDigit(s[|s| - 1]) then None
    else
      var d := s[|s| - 1] as int - '0' as int;
      if |s| == 1 then Some(d)
      else match ParseDigits(s[..|s| - 1])
        case None => None
        case Some(v) => Some(10 * v + d)
  }

  function ParseUint(s: string): Option<nat> {
    match ParseDigits(s)
    case Some(v) => if v <= MAX_UINT64 then Some(v) else None
    case None => None
  }

  function ParseInt(s: string): Option<int> {
    var signed := s != "" && (s[0] == '-' || s[0] == '+');
    match ParseDigits(if signed then s[1..] else s)
    case None => None
    case Some(v) =>
      var magnitude: int := v;
      var n := if signed && s[0] == '-' then -magnitude else magnitude;
      if MIN_INT64 <= n <= MAX_INT64 then Some(n) else None
  }

  lemma {:induction false} ParseFormatDigits(n: nat)
    ensures ParseDigits(FormatUint(n)) == Some(n)
  {
    if n >= 10 {
      ParseFormatDigits(n / 10);
      var s := FormatUint(n);
      assert s[..|s| - 1] == FormatUint(n / 10);
    }
  }

  /** Exactly the nonempty strings of digits are numbers. */
  lemma {:induction false} ParsedDigits(s: string)
    ensures ParseDigits(s).Some? <==> s != "" && forall i :: 0 <= i < |s| ==> '0' <= s[i] <= '9'
  {
    if |s| > 1 {
      var n := |s| - 1;
      ParsedDigits(s[..n]);
      assert s == s[..n] + [s[n]];
      assert forall i :: 0 <= i < n ==> s[..n][i] == s[i];
    }
  }

  /** An offset is refused unless it has a comma, a height before the first one and an index that
      fits its word after it. */
  lemma ParsedOffset(s: string)
    ensures ParseOffset(s).Ok? <==>
              exists i :: 0 <= i < |s| && s[i] == ',' && (forall j :: 0 <= j < i ==> s[j] != ',')
                && ParseInt(s[..i]).Some? && ParseUint(s[i + 1..]).Some?
    ensures ParseOffset(s).Err? ==> ParseOffset(s).error == BadOffset
  {
    hide ParseInt, ParseUint;
    if i :| 0 <= i < |s| && s[i] == ',' && forall j :: 0 <= j < i ==> s[j] != ',' {
      assert Comma(s).Some?;
      assert Comma(s).value == i;
    }
  }

  lemma BuiltExample()
    ensures BuildOffset(-12, 305) == "-12,305"
  {
    assert FormatUint(12) == FormatUint(1) + "2";
    assert FormatUint(305) == FormatUint(30) + "5" && FormatUint(30) == FormatUint(3) + "0";
  }

  lemma RefusedExample()
    ensures ParseOffset("12") == Err(BadOffset) && ParseOffset("a,1") == Err(BadOffset)
  {
    assert Comma("12") == None;
    assert Comma("a,1") == Some(1) && "a,1"[..1] == "a";
    assert ParseDigits("a") == None;
  }

  /** A printed number is parsed back exactly when it fits its word. */
  lemma PrintedFits(n: int)
    ensures ParseInt(FormatInt(n)) == if -0x8000_0000_0000_0000 <= n <= 0x7fff_ffff_ffff_ffff then Some(n) else None
    ensures n >= 0 ==> (ParseUint(FormatUint(n)) == if n <= 0xffff_ffff_ffff_ffff then Some(n) else None)
  {
    if n < 0 {
      ParseFormatDigits(-n);
      ParseSigned(FormatUint(-n), n);
    } else {
      ParseFormatDigits(n);
      ParseUnsigned(FormatUint(n), n);
    }
  }

  lemma ParseSigned(digits: string, n: int)
    requires n < 0 && ParseDigits(digits) == Some(-n)
    ensures ParseInt("-" + digits) == if MIN_INT64 <= n then Some(n) else None
  {
    hide ParseDigits;
    assert ("-" + digits)[1..] == digits && ("-" + digits)[0] == '-';
  }

  lemma ParseUnsigned(digits: string, v: nat)
    requires ParseDigits(digits) == Some(v) && digits != "" && IsDigit(digits[0])
    ensures ParseInt(digits) == if v <= MAX_INT64 then Some(v) else None
    ensures ParseUint(digits) == if v <= MAX_UINT64 then Some(v) else None
  {
    hide ParseDigits;
  }

  lemma ParseFormatInt(n: int)
    requires MIN_INT64 <= n <= MAX_INT64
    ensures ParseInt(FormatInt(n)) == Some(n)
  {
    PrintedFits(n);
  }

  /** The position of the first comma. */
  function Comma(s: string): (r: Option<nat>)
    ensures r.Some? ==> r.value < |s| && s[r.value] == ',' && forall i :: 0 <= i < r.value ==> s[i] != ','
    ensures r.None? ==> forall i :: 0 <= i < |s| ==> s[i] != ','
  {
    if s == "" then None
    else if s[0] == ',' then Some(0)
    else match Comma(s[1..])
      case None => None
      case Some(i) => Some(i + 1)
  }

  function ParseOffset(s: string): Result<(int, nat)> {
    match Comma(s)
    case None => Err(BadOffset)
    case Some(i) =>
      match (ParseInt(s[..i]), ParseUint(s[i + 1..]))
      case (Some(h), Some(u)) => Ok((h, u))
      case _ => Err(BadOffset)
  }

  function BuildOffset(height: int, index: nat): string { FormatInt(height) + "," + FormatUint(index) }

  /** An offset that was built is parsed back to the height and index it was built from. */
  lemma OffsetRoundTrip(height: int, index: nat)
    requires MIN_INT64 <= height <= MAX_INT64 && index <= MAX_UINT64
    ensures ParseOffset(BuildOffset(height, index)) == Ok((height, index))
    ensures BuildOffset(height, index) != ""
  {
    var a, b, s := FormatInt(height), FormatUint(index), BuildOffset(height, index);
    assert s[|a|] == ',';
    assert forall i :: 0 <= i < |a| ==> a[i] != ',' && s[i] == a[i];
    assert Comma(s) == Some(|a|);
    assert s[..|a|] == a && s[|a| + 1..] == b;
    ParseFormatInt(height);
    ParseFormatDigits(index);
  }

  /** Two operations get the same offset only if height and index agree. */
  lemma OffsetInjective(h1: int, i1: nat, h2: int, i2: nat)
    requires MIN_INT64 <= h1 <= MAX_INT64 && i1 <= MAX_UINT64 && MIN_INT64 <= h2 <= MAX_INT64 && i2 <= MAX_UINT64
    ensures BuildOffset(h1, i1) == BuildOffset(h2, i2) <==> h1 == h2 && i1 == i2
  {
    OffsetRoundTrip(h1, i1);
    OffsetRoundTrip(h2, i2);
  }
}
