/** A text format with the properties `AuditLog.Sound` asks of one, so that what is proved under them is proved
    of something. Each value is put in front of the text that follows it, in a form that ends itself. */
module AuditCodec {
  import opened Outcomes
  import opened AuditChain
  import opened AuditLog

  function PutNat(n: nat, rest: string): string {
    if n == 0 then "." + rest else "|" + PutNat(n - 1, rest)
  }

  function PutInt(n: int, rest: string): string {
    if n >= 0 then "+" + PutNat(n, rest) else "-" + PutNat(-n, rest)
  }

  function PutText(s: string, rest: string): string {
    if s == "" then "." + rest else "," + PutNat(s[0] as nat, PutText(s[1..], rest))
  }

  function PutTexts(ss: seq<string>, rest: string): string {
    if ss == [] then "." + rest else "," + PutText(ss[0], PutTexts(ss[1..], rest))
  }

  function PutDigest(d: Digest, rest: string): string {
    match d
    case Genesis => "g" + rest
    case Mac(key, position, prev, fields) => "m" + PutInt(key, PutInt(position, PutDigest(prev, PutTexts(fields, rest))))
    case Legacy(key, line, prev) => "l" + PutInt(key, PutText(line, PutDigest(prev, rest)))
    case Other(text) => "o" + PutText(text, rest)
  }

  function TextsOf(c: Content): seq<string> {
    [c.time.written, c.time.utc, c.action, c.userId, c.deviceId, c.ip, c.details]
  }

  function PutEntry(e: Entry, rest: string): string {
    PutInt(e.index, PutTexts(TextsOf(e.content), PutDigest(e.prevHash, PutDigest(e.hash, rest))))
  }

  // ---------------------------------------------------------------- a form ends itself

  lemma Peel(c: char, a: string, d: char, b: string)
    requires [c] + a == [d] + b
    ensures c == d && a == b
  {
    assert ([c] + a)[0] == c && ([d] + b)[0] == d;
    assert ([c] + a)[1..] == a && ([d] + b)[1..] == b;
  }

  lemma {:induction false} SplitNat(m: nat, a: string, n: nat, b: string)
    requires PutNat(m, a) == PutNat(n, b)
    ensures m == n && a == b
    decreases m
  {
    if m == 0 || n == 0 {
      Peel(if m == 0 then '.' else '|', if m == 0 then a else PutNat(m - 1, a),
           if n == 0 then '.' else '|', if n == 0 then b else PutNat(n - 1, b));
    } else {
      Peel('|', PutNat(m - 1, a), '|', PutNat(n - 1, b));
      SplitNat(m - 1, a, n - 1, b);
    }
  }

  function Sign(n: int): char {
    if n >= 0 then '+' else '-'
  }

  function Size(n: int): nat {
    if n >= 0 then n else -n
  }

  lemma SplitInt(m: int, a: string, n: int, b: string)
    requires PutInt(m, a) == PutInt(n, b)
    ensures m == n && a == b
  {
    Peel(Sign(m), PutNat(Size(m), a), Sign(n), PutNat(Size(n), b));
    SplitNat(Size(m), a, Size(n), b);
  }

  lemma {:induction false} SplitText(s: string, a: string, t: string, b: string)
    requires PutText(s, a) == PutText(t, b)
    ensures s == t && a == b
    decreases |s|
  {
    Peel(if s == "" then '.' else ',', if s == "" then a else PutNat(s[0] as nat, PutText(s[1..], a)),
         if t == "" then '.' else ',', if t == "" then b else PutNat(t[0] as nat, PutText(t[1..], b)));
    if s != "" {
      SplitNat(s[0] as nat, PutText(s[1..], a), t[0] as nat, PutText(t[1..], b));
      SplitText(s[1..], a, t[1..], b);
      assert s == [s[0]] + s[1..] && t == [t[0]] + t[1..];
    }
  }

  lemma {:induction false} SplitTexts(s: seq<string>, a: string, t: seq<string>, b: string)
    requires PutTexts(s, a) == PutTexts(t, b)
    ensures s == t && a == b
    decreases |s|
  {
    Peel(if s == [] then '.' else ',', if s == [] then a else PutText(s[0], PutTexts(s[1..], a)),
         if t == [] then '.' else ',', if t == [] then b else PutText(t[0], PutTexts(t[1..], b)));
    if s != [] {
      SplitText(s[0], PutTexts(s[1..], a), t[0], PutTexts(t[1..], b));
      SplitTexts(s[1..], a, t[1..], b);
      assert s == [s[0]] + s[1..] && t == [t[0]] + t[1..];
    }
  }

  function Kind(d: Digest): char {
    match d
    case Genesis => 'g'
    case Mac(_, _, _, _) => 'm'
    case Legacy(_, _, _) => 'l'
    case Other(_) => 'o'
  }

  function Body(d: Digest, rest: string): string {
    match d
    case Genesis => rest
    case Mac(key, position, prev, fields) => PutInt(key, PutInt(position, PutDigest(prev, PutTexts(fields, rest))))
    case Legacy(key, line, prev) => PutInt(key, PutText(line, PutDigest(prev, rest)))
    case Other(text) => PutText(text, rest)
  }

  lemma {:induction false} SplitDigest(d: Digest, a: string, e: Digest, b: string)
    requires PutDigest(d, a) == PutDigest(e, b)
    ensures d == e && a == b
    decreases d
  {
    Peel(Kind(d), Body(d, a), Kind(e), Body(e, b));
    match d
    case Genesis =>
    case Mac(key, position, prev, fields) =>
      SplitInt(key, PutInt(position, PutDigest(prev, PutTexts(fields, a))), 
               e.key, PutInt(e.position, PutDigest(e.prev, PutTexts(e.fields, b))));
      SplitInt(position, PutDigest(prev, PutTexts(fields, a)), e.position, PutDigest(e.prev, PutTexts(e.fields, b)));
      SplitDigest(prev, PutTexts(fields, a), e.prev, PutTexts(e.fields, b));
      SplitTexts(fields, a, e.fields, b);
    case Legacy(key, line, prev) =>
      SplitInt(key, PutText(line, PutDigest(prev, a)), e.key, PutText(e.line, PutDigest(e.prev, b)));
      SplitText(line, PutDigest(prev, a), e.line, PutDigest(e.prev, b));
      SplitDigest(prev, a, e.prev, b);
    case Other(text) =>
      SplitText(text, a, e.text, b);
  }

  lemma SplitEntry(d: Entry, a: string, e: Entry, b: string)
    requires PutEntry(d, a) == PutEntry(e, b)
    ensures d == e && a == b
  {
    var da, ea := PutDigest(d.prevHash, PutDigest(d.hash, a)), PutDigest(e.prevHash, PutDigest(e.hash, b));
    SplitInt(d.index, PutTexts(TextsOf(d.content), da), e.index, PutTexts(TextsOf(e.content), ea));
    SplitTexts(TextsOf(d.content), da, TextsOf(e.content), ea);
    SplitDigest(d.prevHash, PutDigest(d.hash, a), e.prevHash, PutDigest(e.hash, b));
    SplitDigest(d.hash, a, e.hash, b);
    assert forall i :: 0 <= i < 7 ==> TextsOf(d.content)[i] == TextsOf(e.content)[i];
  }

  // ---------------------------------------------------------------- and goes in front of any text

  lemma {:induction false} FrontNat(n: nat, a: string, b: string)
    ensures PutNat(n, a) + b == PutNat(n, a + b) && ('\n' !in a ==> '\n' !in PutNat(n, a))
  {
    if n > 0 {
      FrontNat(n - 1, a, b);
    }
  }

  lemma {:induction false} FrontText(s: string, a: string, b: string)
    ensures PutText(s, a) + b == PutText(s, a + b) && ('\n' !in a ==> '\n' !in PutText(s, a))
  {
    if s != "" {
      FrontText(s[1..], a, b);
      FrontNat(s[0] as nat, PutText(s[1..], a), b);
    }
  }

  lemma {:induction false} FrontTexts(ss: seq<string>, a: string, b: string)
    ensures PutTexts(ss, a) + b == PutTexts(ss, a + b) && ('\n' !in a ==> '\n' !in PutTexts(ss, a))
  {
    if ss != [] {
      FrontTexts(ss[1..], a, b);
      FrontText(ss[0], PutTexts(ss[1..], a), b);
    }
  }

  lemma FrontInt(n: int, a: string, b: string)
    ensures PutInt(n, a) + b == PutInt(n, a + b) && ('\n' !in a ==> '\n' !in PutInt(n, a))
  {
    var sign, digits := [Sign(n)], PutNat(Size(n), a);
    FrontNat(Size(n), a, b);
    assert PutInt(n, a) == sign + digits && PutInt(n, a + b) == sign + (digits + b);
    assert (sign + digits) + b == sign + (digits + b);
  }

  lemma {:induction false} FrontDigest(d: Digest, a: string, b: string)
    ensures PutDigest(d, a) + b == PutDigest(d, a + b) && ('\n' !in a ==> '\n' !in PutDigest(d, a))
    decreases d
  {
    match d
    case Genesis =>
    case Mac(key, position, prev, fields) =>
      FrontTexts(fields, a, b);
      FrontDigest(prev, PutTexts(fields, a), b);
      FrontInt(position, PutDigest(prev, PutTexts(fields, a)), b);
      FrontInt(key, PutInt(position, PutDigest(prev, PutTexts(fields, a))), b);
    case Legacy(key, line, prev) =>
      FrontDigest(prev, a, b);
      FrontText(line, PutDigest(prev, a), b);
      FrontInt(key, PutText(line, PutDigest(prev, a)), b);
    case Other(text) =>
      FrontText(text, a, b);
  }

  lemma FrontEntry(e: Entry, a: string, b: string)
    ensures PutEntry(e, a) + b == PutEntry(e, a + b) && ('\n' !in a ==> '\n' !in PutEntry(e, a))
  {
    var hash, prev := PutDigest(e.hash, a), PutDigest(e.prevHash, PutDigest(e.hash, a));
    FrontDigest(e.hash, a, b);
    FrontDigest(e.prevHash, hash, b);
    FrontTexts(TextsOf(e.content), prev, b);
    FrontInt(e.index, PutTexts(TextsOf(e.content), prev), b);
  }

  // ---------------------------------------------------------------- the codec

  ghost predicate Starts(s: string, e: Entry) {
    PutEntry(e, "") <= s
  }

  /** The entry a text starts with, if any. */
  ghost function Decoded(s: string): Option<(Entry, nat)> {
    if e :| Starts(s, e) then Some((e, |PutEntry(e, "")|)) else None
  }

  lemma StartsOnce(s: string, d: Entry, e: Entry)
    requires Starts(s, d) && Starts(s, e)
    ensures d == e
  {
    var a, b := s[|PutEntry(d, "")|..], s[|PutEntry(e, "")|..];
    FrontEntry(d, "", a);
    FrontEntry(e, "", b);
    assert "" + a == a && "" + b == b;
    assert PutEntry(d, "") + a == s && PutEntry(e, "") + b == s;
    SplitEntry(d, a, e, b);
  }

  lemma DecodesFront(e: Entry, rest: string)
    ensures Decoded(PutEntry(e, "") + rest) == Some((e, |PutEntry(e, "")|))
  {
    var s := PutEntry(e, "") + rest;
    assert Starts(s, e);
    forall d | Starts(s, d) ensures d == e {
      StartsOnce(s, d, e);
    }
  }

  lemma NoPartDecodes(e: Entry, k: nat)
    requires k < |PutEntry(e, "")|
    ensures Decoded(PutEntry(e, "")[..k]) == None
  {
    var part := PutEntry(e, "")[..k];
    forall d ensures !Starts(part, d) {
      if Starts(part, d) {
        assert Starts(PutEntry(e, ""), d) && Starts(PutEntry(e, ""), e);
        StartsOnce(PutEntry(e, ""), d, e);
      }
    }
  }

  /** There is a codec as the audit log needs one. */
  lemma SoundCodecExists() returns (c: Codec)
    ensures Sound(c)
  {
    c := Codec((e: Entry) => PutEntry(e, ""), s => Decoded(s));
    forall e ensures PlainText(c.enc(e)) {
      FrontEntry(e, "", "");
    }
    forall e, rest ensures c.dec(c.enc(e) + rest) == Some((e, |c.enc(e)|)) {
      DecodesFront(e, rest);
    }
    forall e, k | 0 <= k < |c.enc(e)| ensures c.dec(c.enc(e)[..k]) == None {
      NoPartDecodes(e, k);
    }
  }
}
