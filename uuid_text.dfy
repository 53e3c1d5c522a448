/**
 * The textual UUID forms of section 3 of RFC 4122 (section 4 of RFC 9562),
 * read the way Python's `uuid.UUID(hex)` reads them, and the text of
 * `str(uuid4())`.
 *
 * `UUID(hex)` removes every `urn:`, then every `uuid:`, strips `{` and `}`
 * from both ends, removes every `-`, demands exactly 32 characters left and
 * reads them with `int(hex, 16)`.
 */
module UuidText {
  import opened Wrappers

  type HexDigit = d: nat | d < 16

  /** 128 bits as 32 hexadecimal digits, most significant first. */
  type Digits128 = s: seq<HexDigit> | |s| == 32 witness seq(32, i => 0)

  /** The value of one hexadecimal digit character, in either case. */
  function DigitOf(c: char): (r: Option<HexDigit>)
    ensures r.Some? <==> ('0' <= c <= '9' || 'a' <= c <= 'f' || 'A' <= c <= 'F')
  {
    if '0' <= c <= '9' then Some(c as int - '0' as int)
    else if 'a' <= c <= 'f' then Some(c as int - 'a' as int + 10)
    else if 'A' <= c <= 'F' then Some(c as int - 'A' as int + 10)
    else None
  }

  /** The lower-case character of a digit, as `'%032x'` prints it. */
  function HexChar(d: HexDigit): (c: char)
    ensures DigitOf(c) == Some(d)
    ensures '0' <= c <= '9' || 'a' <= c <= 'f'
  {
    if d < 10 then (48 + d) as char else (87 + d) as char
  }

  function HexText(ds: seq<HexDigit>): (s: string)
    ensures |s| == |ds| && forall i :: 0 <= i < |ds| ==> s[i] == HexChar(ds[i])
  {
    seq(|ds|, i requires 0 <= i < |ds| => HexChar(ds[i]))
  }

  /**
   * `int(s, 16)` on ASCII text: it succeeds exactly when `s` is non-empty and
   * every character is a hexadecimal digit (`int("", 16)` raises).
   */
  function ParseDigits(s: string): (r: Option<seq<HexDigit>>)
    ensures r.Some? <==> |s| > 0 && forall i :: 0 <= i < |s| ==> DigitOf(s[i]).Some?
    ensures r.Some? ==> |r.value| == |s| && forall i :: 0 <= i < |s| ==> r.value[i] == DigitOf(s[i]).value
  {
    if s == [] then None
    else if |s| == 1 then
      match DigitOf(s[0])
        case Some(d) => Some([d])
        case None => None
    else match (DigitOf(s[0]), ParseDigits(s[1..]))
      case (Some(d), Some(rest)) => Some([d] + rest)
      case _ => None
  }

  /** Python's `s.replace(pat, '')`: every non-overlapping occurrence, left to right, is removed. */
  function RemoveAll(s: string, pat: string): string
    requires |pat| > 0
    decreases |s|
  {
    if |s| < |pat| then s
    else if s[..|pat|] == pat then RemoveAll(s[|pat|..], pat)
    else [s[0]] + RemoveAll(s[1..], pat)
  }

  function StripLeft(s: string, cs: set<char>): string
  {
    if s != [] && s[0] in cs then StripLeft(s[1..], cs) else s
  }

  function StripRight(s: string, cs: set<char>): string
  {
    if s != [] && s[|s| - 1] in cs then StripRight(s[..|s| - 1], cs) else s
  }

  /** Python's `s.strip(cs)`. */
  function Strip(s: string, cs: set<char>): string
  {
    StripRight(StripLeft(s, cs), cs)
  }

  /** `uuid.UUID(hex)`: the 128-bit value as 32 digits, or `None` where it raises `ValueError`. */
  function Parse(hex: string): (r: Option<Digits128>)
    ensures r.Some? <==> |Core(hex)| == 32 && forall i :: 0 <= i < 32 ==> DigitOf(Core(hex)[i]).Some?
    ensures r.Some? ==> forall i :: 0 <= i < 32 ==> r.value[i] == DigitOf(Core(hex)[i]).value
  {
    var h := Core(hex);
    if |h| != 32 then None
    else match ParseDigits(h)
      case Some(ds) => Some(ds)
      case None => None
  }

  /** What `UUID(hex)` hands to `int(hex, 16)`. */
  function Core(hex: string): (h: string)
    ensures forall i :: 0 <= i < |h| ==> h[i] != '-'
  {
    var h := RemoveAll(RemoveAll(hex, "urn:"), "uuid:");
    RemoveAllDropsChar(Strip(h, {'{', '}'}), '-');
    RemoveAll(Strip(h, {'{', '}'}), "-")
  }

  /** `str(UUID)`: 32 lower-case digits grouped 8-4-4-4-12 by hyphens. */
  function Hyphenated(ds: Digits128): string
  {
    HexText(ds[..8]) + "-" + HexText(ds[8..12]) + "-" + HexText(ds[12..16]) + "-"
      + HexText(ds[16..20]) + "-" + HexText(ds[20..])
  }

  /**
   * `uuid4()`: 128 random bits with the version digit set to 4 and the top
   * two bits of the variant digit set to `10`.
   */
  function Uuid4Digits(random: Digits128): (ds: Digits128)
    ensures ds[12] == 4 && 8 <= ds[16] < 12
    ensures ds[16] == 8 + random[16] % 4
    ensures forall i :: 0 <= i < 32 && i != 12 && i != 16 ==> ds[i] == random[i]
  {
    random[12 := 4][16 := 8 + random[16] % 4]
  }

  /** A freshly generated `str(uuid4())`. */
  function Uuid4Text(random: Digits128): (t: string)
    ensures |t| == 36 && t[8] == t[13] == t[18] == t[23] == '-'
    ensures t[14] == '4' && t[19] in {'8', '9', 'a', 'b'}
    ensures forall i | 0 <= i < 36 && i !in {8, 13, 18, 23} :: '0' <= t[i] <= '9' || 'a' <= t[i] <= 'f'
  {
    HyphenatedChars(Uuid4Digits(random));
    Hyphenated(Uuid4Digits(random))
  }

  // ---- Proofs ----

  lemma {:induction false} ParseHexText(ds: seq<HexDigit>)
    requires |ds| > 0
    ensures ParseDigits(HexText(ds)) == Some(ds)
  {
    var r := ParseDigits(HexText(ds));
    assert r.Some?;
    assert r.value == ds;
  }

  /** Removing a single character leaves no occurrence of it. */
  lemma {:induction false} RemoveAllDropsChar(s: string, c: char)
    ensures forall i :: 0 <= i < |RemoveAll(s, [c])| ==> RemoveAll(s, [c])[i] != c
    decreases |s|
  {
    if |s| >= 1 {
      RemoveAllDropsChar(s[1..], c);
    }
  }

  /** Removing occurrences never lengthens the text. */
  lemma {:induction false} RemoveAllShorter(s: string, pat: string)
    requires |pat| > 0
    ensures |RemoveAll(s, pat)| <= |s|
    decreases |s|
  {
    if |s| >= |pat| {
      if s[..|pat|] == pat {
        RemoveAllShorter(s[|pat|..], pat);
      } else {
        RemoveAllShorter(s[1..], pat);
      }
    }
  }

  /** Removing a pattern one of whose characters does not occur changes nothing. */
  lemma {:induction false} RemoveAllAbsent(s: string, pat: string, k: nat)
    requires k < |pat|
    requires forall i :: 0 <= i < |s| ==> s[i] != pat[k]
    ensures RemoveAll(s, pat) == s
    decreases |s|
  {
    if |s| >= |pat| {
      assert s[..|pat|][k] != pat[k];
      RemoveAllAbsent(s[1..], pat, k);
      assert [s[0]] + s[1..] == s;
    }
  }

  /** Removing one character distributes over concatenation. */
  lemma {:induction false} RemoveCharAppend(a: string, b: string, c: char)
    ensures RemoveAll(a + b, [c]) == RemoveAll(a, [c]) + RemoveAll(b, [c])
    decreases |a|
  {
    if a != [] {
      RemoveCharAppend(a[1..], b, c);
      assert (a + b)[1..] == a[1..] + b;
      assert (a + b)[..1] == a[..1];
    } else {
      assert a + b == b;
    }
  }

  lemma HexTextHasNo(ds: seq<HexDigit>, c: char)
    requires !('0' <= c <= '9' || 'a' <= c <= 'f')
    ensures forall i :: 0 <= i < |HexText(ds)| ==> HexText(ds)[i] != c
  {
  }

  lemma HyphenatedChars(ds: Digits128)
    ensures var t := Hyphenated(ds);
            |t| == 36 && forall i :: 0 <= i < |t| ==> t[i] == '-' || '0' <= t[i] <= '9' || 'a' <= t[i] <= 'f'
    ensures Hyphenated(ds)[0] != '{' && Hyphenated(ds)[35] != '}'
  {
  }

  lemma RemoveHyphenJoin(a: string, b: string)
    ensures RemoveAll(a + "-" + b, "-") == RemoveAll(a, "-") + RemoveAll(b, "-")
  {
    RemoveCharAppend(a + "-", b, '-');
    RemoveCharAppend(a, "-", '-');
    assert RemoveAll("-", "-") == "";
  }

  lemma HexTextNoHyphen(ds: seq<HexDigit>)
    ensures RemoveAll(HexText(ds), "-") == HexText(ds)
  {
    HexTextHasNo(ds, '-');
    RemoveAllAbsent(HexText(ds), "-", 0);
  }

  lemma HexTextSplit(ds: seq<HexDigit>, k: nat)
    requires k <= |ds|
    ensures HexText(ds) == HexText(ds[..k]) + HexText(ds[k..])
  {
  }

  /** Removing the hyphens of the canonical form leaves the 32 digits. */
  lemma HyphenatedDigits(ds: Digits128)
    ensures RemoveAll(Hyphenated(ds), "-") == HexText(ds)
  {
    var p0, p1, p2, p3, p4 := HexText(ds[..8]), HexText(ds[8..12]), HexText(ds[12..16]), HexText(ds[16..20]), HexText(ds[20..]);
    HexTextNoHyphen(ds[..8]);
    HexTextNoHyphen(ds[8..12]);
    HexTextNoHyphen(ds[12..16]);
    HexTextNoHyphen(ds[16..20]);
    HexTextNoHyphen(ds[20..]);
    var a1 := p0 + "-" + p1;
    var a2 := a1 + "-" + p2;
    var a3 := a2 + "-" + p3;
    assert Hyphenated(ds) == a3 + "-" + p4;
    RemoveHyphenJoin(p0, p1);
    RemoveHyphenJoin(a1, p2);
    RemoveHyphenJoin(a2, p3);
    RemoveHyphenJoin(a3, p4);
    assert RemoveAll(Hyphenated(ds), "-") == p0 + p1 + p2 + p3 + p4;
    HexTextSplit(ds, 20);
    HexTextSplit(ds[..20], 16);
    HexTextSplit(ds[..16], 12);
    HexTextSplit(ds[..12], 8);
    assert ds[..20][..16] == ds[..16] && ds[..20][16..] == ds[16..20];
    assert ds[..16][..12] == ds[..12] && ds[..16][12..] == ds[12..16];
    assert ds[..12][..8] == ds[..8] && ds[..12][8..] == ds[8..12];
  }

  /** A text whose core is the 32 digits of `ds` reads back as `ds`. */
  lemma ParseOfCore(hex: string, ds: Digits128)
    requires Core(hex) == HexText(ds)
    ensures Parse(hex) == Some(ds)
  {
    ParseHexText(ds);
  }

  /** The canonical form is free of every character that `UUID()` removes or strips. */
  lemma HyphenatedUntouched(ds: Digits128)
    ensures RemoveAll(Hyphenated(ds), "urn:") == Hyphenated(ds)
    ensures RemoveAll(Hyphenated(ds), "uuid:") == Hyphenated(ds)
    ensures Strip(Hyphenated(ds), {'{', '}'}) == Hyphenated(ds)
  {
    HyphenatedChars(ds);
    RemoveAllAbsent(Hyphenated(ds), "urn:", 0);
    RemoveAllAbsent(Hyphenated(ds), "uuid:", 0);
    assert StripLeft(Hyphenated(ds), {'{', '}'}) == Hyphenated(ds);
  }

  /** The hyphenated form reads back as the value it prints. */
  lemma ParseHyphenated(ds: Digits128)
    ensures Parse(Hyphenated(ds)) == Some(ds)
  {
    HyphenatedUntouched(ds);
    HyphenatedDigits(ds);
    ParseOfCore(Hyphenated(ds), ds);
  }

  /**
   * A leading `-`, which `int(hex, 16)` would read as a minus sign, is
   * removed with the other hyphens, so `UUID("-" + str(u))` reads back `u`.
   */
  lemma ParseLeadingHyphen(ds: Digits128)
    ensures Parse("-" + Hyphenated(ds)) == Some(ds)
  {
    var h := Hyphenated(ds);
    var s := "-" + h;
    HyphenatedChars(ds);
    HyphenatedDigits(ds);
    RemoveAllAbsent(s, "urn:", 1);
    RemoveAllAbsent(s, "uuid:", 4);
    assert StripLeft(s, {'{', '}'}) == s;
    assert StripRight(s, {'{', '}'}) == s;
    assert s[..1] == "-" && s[1..] == h;
    assert RemoveAll(s, "-") == RemoveAll(h, "-");
    ParseOfCore(s, ds);
  }

  /** The braced form `{...}` reads back as the same value. */
  lemma ParseBraced(ds: Digits128)
    ensures Parse("{" + Hyphenated(ds) + "}") == Some(ds)
  {
    var core := Hyphenated(ds);
    var s := "{" + core + "}";
    HyphenatedChars(ds);
    HyphenatedDigits(ds);
    RemoveAllAbsent(s, "urn:", 0);
    RemoveAllAbsent(s, "uuid:", 0);
    assert s[1..] == core + "}";
    assert StripLeft(s, {'{', '}'}) == core + "}";
    assert (core + "}")[..36] == core;
    assert StripRight(core + "}", {'{', '}'}) == core;
    ParseOfCore(s, ds);
  }

  /** The 32 digits without hyphens read back as the same value. */
  lemma ParseBare(ds: Digits128)
    ensures Parse(HexText(ds)) == Some(ds)
  {
    var s := HexText(ds);
    HexTextHasNo(ds, 'u');
    HexTextHasNo(ds, '{');
    HexTextHasNo(ds, '}');
    RemoveAllAbsent(s, "urn:", 0);
    RemoveAllAbsent(s, "uuid:", 0);
    HexTextNoHyphen(ds);
    assert StripLeft(s, {'{', '}'}) == s;
    assert StripRight(s, {'{', '}'}) == s;
    ParseOfCore(s, ds);
  }

  /** The `urn:uuid:` form of section 3 of RFC 4122 reads back as the same value. */
  lemma ParseUrn(ds: Digits128)
    ensures Parse("urn:uuid:" + Hyphenated(ds)) == Some(ds)
  {
    var core := Hyphenated(ds);
    HyphenatedUntouched(ds);
    HyphenatedDigits(ds);
    RemoveUrnPrefix(core);
    ParseOfCore("urn:uuid:" + core, ds);
  }

  /** A character at which the pattern cannot start is kept. */
  lemma RemoveAllKeep(c: char, s: string, pat: string, k: nat)
    requires k < |pat| && (c != pat[0] || (k > 0 && |pat| <= 1 + |s| && s[k - 1] != pat[k]))
    ensures RemoveAll([c] + s, pat) == [c] + RemoveAll(s, pat)
  {
  }

  /** Removing `urn:` keeps a `uuid:` prefix on a text free of `urn:`. */
  lemma UrnKeepsUuidPrefix(core: string)
    requires RemoveAll(core, "urn:") == core
    ensures RemoveAll("uuid:" + core, "urn:") == "uuid:" + core
  {
    var t4 := [':'] + core;
    RemoveAllKeep(':', core, "urn:", 0);
    assert RemoveAll(t4, "urn:") == t4;
    var t3 := ['d'] + t4;
    RemoveAllKeep('d', t4, "urn:", 0);
    assert RemoveAll(t3, "urn:") == t3;
    var t2 := ['i'] + t3;
    RemoveAllKeep('i', t3, "urn:", 0);
    assert RemoveAll(t2, "urn:") == t2;
    UrnKeepsUuPrefix(t2);
    assert ['u', 'u'] + t2 == "uuid:" + core;
  }

  /** The two leading `u`s of `uuid:` are kept: neither starts `urn:`. */
  lemma UrnKeepsUuPrefix(t2: string)
    requires |t2| >= 3 && t2[0] == 'i' && RemoveAll(t2, "urn:") == t2
    ensures RemoveAll(['u', 'u'] + t2, "urn:") == ['u', 'u'] + t2
  {
    var t1 := ['u'] + t2;
    RemoveAllKeep('u', t2, "urn:", 1);
    assert RemoveAll(t1, "urn:") == t1;
    RemoveAllKeep('u', t1, "urn:", 1);
    assert ['u'] + t1 == ['u', 'u'] + t2;
  }

  /** Removing `urn:` and then `uuid:` takes the whole `urn:uuid:` prefix off a text free of both. */
  lemma RemoveUrnPrefix(core: string)
    requires RemoveAll(core, "urn:") == core && RemoveAll(core, "uuid:") == core
    ensures RemoveAll(RemoveAll("urn:uuid:" + core, "urn:"), "uuid:") == core
  {
    var t := "uuid:" + core;
    UrnKeepsUuidPrefix(core);
    var s := "urn:" + t;
    assert s[..4] == "urn:" && s[4..] == t;
    assert RemoveAll(s, "urn:") == t;
    assert t[..5] == "uuid:" && t[5..] == core;
    assert RemoveAll(t, "uuid:") == core;
    assert s == "urn:uuid:" + core;
  }

  /** `uuid.UUID("not-a-uuid")` raises: eight characters remain after the hyphens go. */
  lemma RejectsNotAUuid()
    ensures Parse("not-a-uuid") == None
  {
    var s := "not-a-uuid";
    RemoveAllAbsent(s, "urn:", 3);
    RemoveAllAbsent(s, "uuid:", 4);
    assert StripLeft(s, {'{', '}'}) == s;
    assert StripRight(s, {'{', '}'}) == s;
    assert Core(s) == RemoveAll(s, "-");
    RemoveAllShorter(s, "-");
  }

  /** `str(uuid4())` always parses back to the digits it was printed from. */
  lemma Uuid4Parses(random: Digits128)
    ensures Parse(Uuid4Text(random)) == Some(Uuid4Digits(random))
  {
    ParseHyphenated(Uuid4Digits(random));
  }
}
