/** Idempotency and cache keys, and which sources they keep apart. */
module IdempotencyKeys {
  import opened Foundations
  import opened Proto

  // --------------------------------------------------------------- Formatting

  const HEX_DIGITS := "0123456789abcdef"

  function HexByte(b: byte): string {
    [HEX_DIGITS[b / 16], HEX_DIGITS[b % 16]]
  }

  /** `hex::encode`. */
  function Hex(bytes: Bytes): string {
    if |bytes| == 0 then "" else HexByte(bytes[0]) + Hex(bytes[1..])
  }

  /** Decimal formatting of an unsigned integer. */
  function Decimal(n: nat): string {
    if n < 10 then [HEX_DIGITS[n]] else Decimal(n / 10) + [HEX_DIGITS[n % 10]]
  }

  /** The explicit edition name if set, otherwise the default edition "". */
  function EditionName(cover: Cover): string {
    match cover.edition
    case Some(e) => e.name
    case None => ""
  }

  function RootBytes(cover: Cover): Bytes {
    cover.root.UnwrapOr([])
  }

  const UNKNOWN_DOMAIN := "unknown"

  /** The cover's domain; an empty one counts as missing. */
  function DomainOrUnknown(cover: Cover): string {
    if cover.domain == "" then UNKNOWN_DOMAIN else cover.domain
  }

  /** `AngzarrDeferredSequenceExt::idempotency_key`. */
  function IdempotencyKey(d: DeferredSequence): Result<string, string> {
    match d.source
    case None => Err("source required")
    case Some(cover) =>
      Ok(EditionName(cover) + ":" + cover.domain + ":" + Hex(RootBytes(cover)) + ":" + Decimal(d.sourceSeq))
  }

  /** `CoverExt::cache_key`. */
  function CacheKey(cover: Cover): string {
    EditionName(cover) + ":" + DomainOrUnknown(cover) + ":" + Hex(RootBytes(cover))
  }

  // ----------------------------------------------------------- Digit encodings

  lemma HexDigitsDistinct(i: nat, j: nat)
    requires i < 16 && j < 16 && HEX_DIGITS[i] == HEX_DIGITS[j]
    ensures i == j
  {
  }

  lemma {:induction false} HexHasNoColon(bytes: Bytes)
    ensures ':' !in Hex(bytes) && |Hex(bytes)| == 2 * |bytes|
  {
    if |bytes| > 0 {
      HexHasNoColon(bytes[1..]);
      assert forall i :: 0 <= i < 16 ==> HEX_DIGITS[i] != ':';
    }
  }

  lemma {:induction false} HexInjective(a: Bytes, b: Bytes)
    requires Hex(a) == Hex(b)
    ensures a == b
  {
    HexHasNoColon(a);
    HexHasNoColon(b);
    if |a| > 0 {
      assert Hex(a)[0] == HEX_DIGITS[a[0] / 16] && Hex(a)[1] == HEX_DIGITS[a[0] % 16];
      assert Hex(b)[0] == HEX_DIGITS[b[0] / 16] && Hex(b)[1] == HEX_DIGITS[b[0] % 16];
      HexDigitsDistinct(a[0] / 16, b[0] / 16);
      HexDigitsDistinct(a[0] % 16, b[0] % 16);
      assert Hex(a[1..]) == Hex(a)[2..] && Hex(b[1..]) == Hex(b)[2..];
      HexInjective(a[1..], b[1..]);
      assert a == [a[0]] + a[1..] && b == [b[0]] + b[1..];
    }
  }

  lemma {:induction false} DecimalHasNoColon(n: nat)
    ensures ':' !in Decimal(n) && |Decimal(n)| > 0 && (n >= 10 ==> |Decimal(n)| > 1)
  {
    assert forall i :: 0 <= i < 16 ==> HEX_DIGITS[i] != ':';
    if n >= 10 {
      DecimalHasNoColon(n / 10);
    }
  }

  lemma {:induction false} DecimalInjective(m: nat, n: nat)
    requires Decimal(m) == Decimal(n)
    ensures m == n
  {
    DecimalHasNoColon(m);
    DecimalHasNoColon(n);
    var s, t := Decimal(m), Decimal(n);
    if m < 10 {
      HexDigitsDistinct(m, n);
    } else {
      assert s[..|s| - 1] == Decimal(m / 10) && t[..|t| - 1] == Decimal(n / 10);
      DecimalInjective(m / 10, n / 10);
      HexDigitsDistinct(m % 10, n % 10);
      assert s[|s| - 1] == t[|t| - 1];
    }
  }

  // ------------------------------------------------------------- Split points

  /** A string is cut at its first ':' in one way. */
  lemma CutAtFirstColon(a: string, x: string, b: string, y: string)
    requires ':' !in a && ':' !in b && a + ":" + x == b + ":" + y
    ensures a == b && x == y
  {
    var s := a + ":" + x;
    assert s[|a|] == ':' && s[|b|] == ':';
    assert forall p :: 0 <= p < |a| ==> s[p] == a[p];
    assert forall p :: 0 <= p < |b| ==> s[p] == b[p];
    assert a == s[..|a|] && b == s[..|b|];
    assert x == s[|a| + 1..] && y == s[|b| + 1..];
  }

  /** A string is cut at its last ':' in one way. */
  lemma CutAtLastColon(x: string, a: string, y: string, b: string)
    requires ':' !in a && ':' !in b && x + ":" + a == y + ":" + b
    ensures x == y && a == b
  {
    var s := x + ":" + a;
    assert s[|x|] == ':' && s[|y|] == ':';
    assert forall p :: |x| < p < |s| ==> s[p] == a[p - |x| - 1];
    assert forall p :: |y| < p < |s| ==> s[p] == b[p - |y| - 1];
    assert x == s[..|x|] && y == s[..|y|];
    assert a == s[|x| + 1..] && b == s[|y| + 1..];
  }

  // --------------------------------------------------------------- Separation

  /** Two sources the framework treats as one: a missing root counts as empty. */
  ghost predicate SameSource(c: Cover, m: uint32, d: Cover, n: uint32) {
    EditionName(c) == EditionName(d) && c.domain == d.domain && RootBytes(c) == RootBytes(d) && m == n
  }

  function KeyOf(c: Cover, n: uint32): string {
    IdempotencyKey(DeferredSequence(Some(c), n)).value
  }

  /** The key determines the root, the sequence and the joined edition and domain. */
  lemma KeyTail(c: Cover, m: uint32, d: Cover, n: uint32)
    requires KeyOf(c, m) == KeyOf(d, n)
    ensures EditionName(c) + ":" + c.domain == EditionName(d) + ":" + d.domain
    ensures RootBytes(c) == RootBytes(d) && m == n
  {
    DecimalHasNoColon(m);
    DecimalHasNoColon(n);
    HexHasNoColon(RootBytes(c));
    HexHasNoColon(RootBytes(d));
    var p := EditionName(c) + ":" + c.domain;
    var q := EditionName(d) + ":" + d.domain;
    CutAtLastColon(p + ":" + Hex(RootBytes(c)), Decimal(m), q + ":" + Hex(RootBytes(d)), Decimal(n));
    CutAtLastColon(p, Hex(RootBytes(c)), q, Hex(RootBytes(d)));
    DecimalInjective(m, n);
    HexInjective(RootBytes(c), RootBytes(d));
  }

  /** When edition names hold no ':', equal keys come from the same source. */
  lemma KeysSeparateSources(c: Cover, m: uint32, d: Cover, n: uint32)
    requires ':' !in EditionName(c) && ':' !in EditionName(d)
    ensures KeyOf(c, m) == KeyOf(d, n) <==> SameSource(c, m, d, n)
  {
    if KeyOf(c, m) == KeyOf(d, n) {
      KeyTail(c, m, d, n);
      CutAtFirstColon(EditionName(c), c.domain, EditionName(d), d.domain);
    }
  }

  /** No other source in the world shares the key. */
  ghost predicate KeyIsUnique(c: Cover, n: uint32) {
    forall d, k :: KeyOf(d, k) == KeyOf(c, n) ==> SameSource(c, n, d, k)
  }

  function Renamed(c: Cover, edition: string, domain: string): Cover {
    c.(edition := Some(Edition(edition, [])), domain := domain)
  }

  /** A ':' in the edition or the domain leaves a second way to read the key. */
  lemma ColonMakesTwin(c: Cover, n: uint32)
    requires ':' in EditionName(c) || ':' in c.domain
    ensures !KeyIsUnique(c, n)
  {
    var e := EditionName(c);
    var twin;
    if ':' in e {
      var i :| 0 <= i < |e| && e[i] == ':';
      twin := Renamed(c, e[..i], e[i + 1..] + ":" + c.domain);
      assert e == e[..i] + ":" + e[i + 1..];
    } else {
      var i :| 0 <= i < |c.domain| && c.domain[i] == ':';
      twin := Renamed(c, e + ":" + c.domain[..i], c.domain[i + 1..]);
      assert c.domain == c.domain[..i] + ":" + c.domain[i + 1..];
    }
    assert EditionName(twin) + ":" + twin.domain == e + ":" + c.domain;
    assert KeyOf(twin, n) == KeyOf(c, n);
    assert |EditionName(twin)| != |e|;
  }

  /**
   * Exactly when a source's key is its own among all sources, whatever their editions: neither its
   * edition nor its domain holds a ':'.
   */
  lemma KeyUniqueExactly(c: Cover, n: uint32)
    ensures KeyIsUnique(c, n) <==> ':' !in EditionName(c) && ':' !in c.domain
  {
    if ':' in EditionName(c) || ':' in c.domain {
      ColonMakesTwin(c, n);
    } else {
      forall d, k | KeyOf(d, k) == KeyOf(c, n) ensures SameSource(c, n, d, k) {
        KeyTail(d, k, c, n);
        OneColonOnly(EditionName(c), c.domain, EditionName(d), d.domain);
      }
    }
  }

  lemma OneColonOnly(a: string, x: string, b: string, y: string)
    requires ':' !in a && ':' !in x && a + ":" + x == b + ":" + y
    ensures a == b && x == y
  {
    var s := a + ":" + x;
    assert s[|b|] == ':';
    assert forall p :: 0 <= p < |a| ==> s[p] == a[p];
    assert forall p :: |a| < p < |s| ==> s[p] == x[p - |a| - 1];
    assert a == s[..|a|] && b == s[..|b|];
    assert x == s[|a| + 1..] && y == s[|b| + 1..];
  }

  /** Cache keys keep apart editions without ':', effective domains and roots. */
  lemma CacheKeysSeparate(c: Cover, d: Cover)
    requires ':' !in EditionName(c) && ':' !in EditionName(d)
    ensures CacheKey(c) == CacheKey(d) <==>
            EditionName(c) == EditionName(d) && DomainOrUnknown(c) == DomainOrUnknown(d) && RootBytes(c) == RootBytes(d)
  {
    if CacheKey(c) == CacheKey(d) {
      CacheTail(c, d);
      CutAtFirstColon(EditionName(c), DomainOrUnknown(c), EditionName(d), DomainOrUnknown(d));
    }
  }

  /** Two covers the cache treats as one: an empty domain counts as unknown, a missing root as empty. */
  ghost predicate SameEntity(c: Cover, d: Cover) {
    EditionName(c) == EditionName(d) && DomainOrUnknown(c) == DomainOrUnknown(d) && RootBytes(c) == RootBytes(d)
  }

  ghost predicate CacheKeyIsUnique(c: Cover) {
    forall d :: CacheKey(d) == CacheKey(c) ==> SameEntity(c, d)
  }

  /** Some ':' of the domain has something after it. */
  predicate SplittableDomain(domain: string) {
    exists i :: 0 <= i < |domain| - 1 && domain[i] == ':'
  }

  lemma CacheTail(c: Cover, d: Cover)
    requires CacheKey(c) == CacheKey(d)
    ensures EditionName(c) + ":" + DomainOrUnknown(c) == EditionName(d) + ":" + DomainOrUnknown(d)
    ensures RootBytes(c) == RootBytes(d)
  {
    HexHasNoColon(RootBytes(c));
    HexHasNoColon(RootBytes(d));
    CutAtLastColon(EditionName(c) + ":" + DomainOrUnknown(c), Hex(RootBytes(c)),
                   EditionName(d) + ":" + DomainOrUnknown(d), Hex(RootBytes(d)));
    HexInjective(RootBytes(c), RootBytes(d));
  }

  /** A front without ':' and a back that cannot be split are found again, if the other back is not empty. */
  lemma UnsplittableCut(a: string, x: string, b: string, y: string)
    requires ':' !in a && !SplittableDomain(x) && y != "" && a + ":" + x == b + ":" + y
    ensures a == b && x == y
  {
    var s := a + ":" + x;
    assert s[|b|] == ':';
    assert forall p :: 0 <= p < |a| ==> s[p] == a[p];
    assert forall p :: |a| < p < |s| ==> s[p] == x[p - |a| - 1];
    assert a == s[..|a|] && b == s[..|b|];
    assert x == s[|a| + 1..] && y == s[|b| + 1..];
  }

  lemma CacheTwin(c: Cover)
    requires ':' in EditionName(c) || SplittableDomain(c.domain)
    ensures !CacheKeyIsUnique(c)
  {
    var e, domain := EditionName(c), DomainOrUnknown(c);
    var twin;
    if ':' in e {
      var i :| 0 <= i < |e| && e[i] == ':';
      twin := Renamed(c, e[..i], e[i + 1..] + ":" + domain);
      assert e == e[..i] + ":" + e[i + 1..];
    } else {
      var i :| 0 <= i < |domain| - 1 && domain[i] == ':';
      twin := Renamed(c, e + ":" + domain[..i], domain[i + 1..]);
      assert domain == domain[..i] + ":" + domain[i + 1..];
    }
    assert EditionName(twin) + ":" + DomainOrUnknown(twin) == e + ":" + domain;
    assert CacheKey(twin) == CacheKey(c);
    assert |EditionName(twin)| != |e|;
  }

  /**
   * Exactly when no other entity shares a cache key: the edition holds no ':' and the domain none but
   * possibly as its last character, since what would follow that one is empty and no domain is.
   */
  lemma CacheKeyUniqueExactly(c: Cover)
    ensures CacheKeyIsUnique(c) <==> ':' !in EditionName(c) && !SplittableDomain(c.domain)
  {
    if ':' in EditionName(c) || SplittableDomain(c.domain) {
      CacheTwin(c);
    } else {
      forall d | CacheKey(d) == CacheKey(c) ensures SameEntity(c, d) {
        CacheTail(d, c);
        UnsplittableCut(EditionName(c), DomainOrUnknown(c), EditionName(d), DomainOrUnknown(d));
      }
    }
  }

  /** A ':' that ends the domain is harmless. */
  lemma TrailingColonIsUnique(c: Cover)
    requires EditionName(c) == "" && c.domain == "order:"
    ensures ':' in c.domain && CacheKeyIsUnique(c)
  {
    assert c.domain[5] == ':';
    CacheKeyUniqueExactly(c);
  }


  // ------------------------------------------------------------ The text

  /** A digit's character: '0' to '9', then 'a' to 'f'. */
  function DigitChar(d: nat): char
    requires d < 16
  {
    if d < 10 then '0' + d as char else 'a' + (d - 10) as char
  }

  lemma DigitIsChar(d: nat)
    requires d < 16
    ensures HEX_DIGITS[d] == DigitChar(d)
  {
  }

  /** Hex text, byte by byte: two lower-case digits each, the high one first. */
  lemma HexText(b: byte, rest: Bytes)
    ensures Hex([]) == ""
    ensures Hex([b] + rest) == [DigitChar(b / 16), DigitChar(b % 16)] + Hex(rest)
  {
    assert ([b] + rest)[1..] == rest;
    DigitIsChar(b / 16);
    DigitIsChar(b % 16);
  }

  /** Decimal text, digit by digit from the right, without leading zeros. */
  lemma DecimalText(n: nat)
    ensures n < 10 ==> Decimal(n) == [DigitChar(n)]
    ensures n >= 10 ==> Decimal(n) == Decimal(n / 10) + [DigitChar(n % 10)]
  {
    DigitIsChar(n % 10);
    if n < 10 {
      DigitIsChar(n);
    }
  }

  /**
   * The text of an idempotency key from the fields of its source: edition name, domain, root in hex,
   * sequence in decimal; a missing edition and a missing root leave their part empty, as an empty
   * name does.
   */
  lemma KeyText(domain: string, correlation: string, root: Bytes, edition: Edition, n: uint32)
    ensures IdempotencyKey(DeferredSequence(None, n)) == Err("source required")
    ensures IdempotencyKey(DeferredSequence(Some(Cover(domain, correlation, Some(root), Some(edition))), n)) ==
            Ok(edition.name + ":" + domain + ":" + Hex(root) + ":" + Decimal(n))
    ensures IdempotencyKey(DeferredSequence(Some(Cover(domain, correlation, Some(root), None)), n)) ==
            Ok("" + ":" + domain + ":" + Hex(root) + ":" + Decimal(n))
    ensures IdempotencyKey(DeferredSequence(Some(Cover(domain, correlation, None, Some(edition))), n)) ==
            Ok(edition.name + ":" + domain + ":" + "" + ":" + Decimal(n))
    ensures IdempotencyKey(DeferredSequence(Some(Cover(domain, correlation, None, None)), n)) ==
            Ok("" + ":" + domain + ":" + "" + ":" + Decimal(n))
  {
  }

  /** The text of a cache key: the same front, with "unknown" for an empty domain, and no sequence. */
  lemma CacheText(domain: string, correlation: string, root: Bytes, edition: Edition)
    ensures var shown := if domain == "" then "unknown" else domain;
            && CacheKey(Cover(domain, correlation, Some(root), Some(edition))) ==
               edition.name + ":" + shown + ":" + Hex(root)
            && CacheKey(Cover(domain, correlation, Some(root), None)) == "" + ":" + shown + ":" + Hex(root)
            && CacheKey(Cover(domain, correlation, None, Some(edition))) ==
               edition.name + ":" + shown + ":" + ""
            && CacheKey(Cover(domain, correlation, None, None)) == "" + ":" + shown + ":" + ""
  {
  }
}
