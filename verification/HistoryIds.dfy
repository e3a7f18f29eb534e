/** The names of history snapshots, and the version a rollback reads back out of one. */
module HistoryIds {
  import opened Outcomes

  const MAX_INT64 := 0x7FFF_FFFF_FFFF_FFFF

  predicate IsDigit(c: char) {
    '0' <= c <= '9'
  }

  predicate AllDigits(s: string) {
    forall i :: 0 <= i < |s| ==> IsDigit(s[i])
  }

  function Digit(d: nat): (c: char)
    requires d < 10
    ensures IsDigit(c) && (c as int) - ('0' as int) == d
  {
    (('0' as int) + d) as char
  }

  function Digits(n: nat): (s: string)
    ensures s != "" && AllDigits(s)
  {
    if n < 10 then [Digit(n)] else Digits(n / 10) + [Digit(n % 10)]
  }

  /** An integer as %d prints it. */
  function Decimal(n: int): (s: string)
    ensures s != "" && forall i :: 0 <= i < |s| ==> s[i] != '_'
  {
    if n < 0 then "-" + Digits(-n) else Digits(n)
  }

  function Value(s: string): (v: int)
    requires AllDigits(s)
    ensures v >= 0
  {
    if s == "" then 0 else 10 * Value(s[..|s| - 1]) + ((s[|s| - 1] as int) - ('0' as int))
  }

  /** strconv.ParseInt(s, 10, 64) with its error dropped: 0 when s is not a number, the
      nearest bound when it does not fit. */
  function ParseInt64(s: string): int {
    var negative := |s| > 0 && s[0] == '-';
    var digits := if |s| > 0 && (s[0] == '-' || s[0] == '+') then s[1..] else s;
    if digits == "" || !AllDigits(digits) then 0
    else if negative then (if Value(digits) > MAX_INT64 + 1 then -MAX_INT64 - 1 else -Value(digits))
    else if Value(digits) > MAX_INT64 then MAX_INT64
    else Value(digits)
  }

  predicate SepAt(s: string, sep: string, i: nat) {
    i + |sep| <= |s| && s[i..i + |sep|] == sep
  }

  /** The first place sep occurs in s at or after from. */
  function FindFrom(s: string, sep: string, from: nat): (r: Option<nat>)
    ensures r.Some? ==> r.value + |sep| <= |s|
    decreases |s| - from
  {
    if SepAt(s, sep, from) then Some(from)
    else if from < |s| then FindFrom(s, sep, from + 1)
    else None
  }

  lemma {:induction false} FindsFirst(s: string, sep: string, from: nat, at: nat)
    requires from <= at && SepAt(s, sep, at) && forall j :: from <= j < at ==> !SepAt(s, sep, j)
    ensures FindFrom(s, sep, from) == Some(at)
    decreases at - from
  {
    if from < at {
      FindsFirst(s, sep, from + 1, at);
    }
  }

  lemma {:induction false} FindsNone(s: string, sep: string, from: nat)
    requires forall j: nat :: from <= j ==> !SepAt(s, sep, j)
    ensures FindFrom(s, sep, from) == None
    decreases |s| - from
  {
    if from < |s| {
      FindsNone(s, sep, from + 1);
    }
  }

  function HistoryVersion(id: string): int {
    match FindFrom(id, "_v", 0)
    case None => 0
    case Some(i) =>
      var rest := id[i + 2..];
      match FindFrom(rest, "_", 0)
      case None => ParseInt64(rest)
      case Some(j) => ParseInt64(rest[..j])
  }

  const BEFORE_ROLLBACK := "_before_rollback"

  function HistoryId(unix: int, version: nat): string {
    Decimal(unix) + "_v" + Decimal(version)
  }

  function RollbackId(unix: int, version: nat): string {
    HistoryId(unix, version) + BEFORE_ROLLBACK
  }

  lemma {:induction false} ValueOfDigits(n: nat)
    ensures Value(Digits(n)) == n
  {
    if n >= 10 {
      ValueOfDigits(n / 10);
      assert Digits(n)[..|Digits(n)| - 1] == Digits(n / 10);
    }
  }

  function Min(a: int, b: int): int {
    if a < b then a else b
  }

  lemma ParsesDecimal(n: nat)
    ensures ParseInt64(Decimal(n)) == Min(n, MAX_INT64)
  {
    ValueOfDigits(n);
    assert IsDigit(Digits(n)[0]);
  }

  /** Cutting a string at a separator whose first character the head does not contain. */
  lemma CutAfter(head: string, sep: string, tail: string)
    requires sep != "" && forall i :: 0 <= i < |head| ==> head[i] != sep[0]
    ensures FindFrom(head + sep + tail, sep, 0) == Some(|head|)
  {
    var s := head + sep + tail;
    assert s[|head|..|head| + |sep|] == sep;
    assert SepAt(s, sep, |head|);
    forall j: nat | j < |head| ensures !SepAt(s, sep, j) {
      assert s[j] == head[j];
      if j + |sep| <= |s| {
        assert s[j..j + |sep|][0] == s[j];
      }
    }
    FindsFirst(s, sep, 0, |head|);
  }

  lemma NoCut(s: string)
    requires forall i :: 0 <= i < |s| ==> s[i] != '_'
    ensures FindFrom(s, "_", 0) == None
  {
    forall j: nat | j + 1 <= |s| ensures !SepAt(s, "_", j) {
      assert s[j..j + 1] == [s[j]];
    }
    FindsNone(s, "_", 0);
  }

  lemma OrdinaryNameParses(unix: int, v: string)
    requires forall i :: 0 <= i < |v| ==> v[i] != '_'
    ensures HistoryVersion(Decimal(unix) + "_v" + v) == ParseInt64(v)
  {
    var t := Decimal(unix);
    CutAfter(t, "_v", v);
    assert (t + "_v" + v)[|t| + 2..] == v;
    NoCut(v);
  }

  lemma RollbackNameParses(unix: int, v: string)
    requires forall i :: 0 <= i < |v| ==> v[i] != '_'
    ensures HistoryVersion(Decimal(unix) + "_v" + v + BEFORE_ROLLBACK) == ParseInt64(v)
  {
    var t, rest := Decimal(unix), v + BEFORE_ROLLBACK;
    assert t + "_v" + v + BEFORE_ROLLBACK == t + "_v" + rest;
    CutAfter(t, "_v", rest);
    assert (t + "_v" + rest)[|t| + 2..] == rest;
    assert rest == v + "_" + "before_rollback";
    CutAfter(v, "_", "before_rollback");
    assert rest[..|v|] == v;
  }

  /** The version read back out of a snapshot's name is the one put into it, for either kind
      of name and any timestamp, saturating where the parsed type does. */
  lemma HistoryVersionRoundTrip(unix: int, version: nat)
    ensures HistoryVersion(HistoryId(unix, version)) == Min(version, MAX_INT64)
    ensures HistoryVersion(RollbackId(unix, version)) == Min(version, MAX_INT64)
  {
    ParsesDecimal(version);
    OrdinaryNameParses(unix, Decimal(version));
    RollbackNameParses(unix, Decimal(version));
    assert RollbackId(unix, version) == Decimal(unix) + "_v" + Decimal(version) + BEFORE_ROLLBACK;
  }

  /** Archives of different versions, or of different kinds, never share a name. */
  lemma ArchiveNamesDistinct(u1: int, v1: nat, u2: int, v2: nat)
    requires v1 <= MAX_INT64 && v2 <= MAX_INT64
    ensures HistoryId(u1, v1) != RollbackId(u2, v2)
    ensures v1 != v2 ==> HistoryId(u1, v1) != HistoryId(u2, v2) && RollbackId(u1, v1) != RollbackId(u2, v2)
  {
    HistoryVersionRoundTrip(u1, v1);
    HistoryVersionRoundTrip(u2, v2);
    var h, r := HistoryId(u1, v1), RollbackId(u2, v2);
    assert h[|h| - 1] == Digits(v1)[|Digits(v1)| - 1];
    assert r[|r| - 1] == 'k';
  }
}
