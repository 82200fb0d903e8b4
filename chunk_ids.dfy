/** The two chunk-id to int64 encodings used for vector-index ids:
    src/utils/ids.py (last 16 hex digits, read as a two's-complement int64)
    and src/embed.py (first 16 hex digits, shifted down by 2^63). */
module ChunkIds {
  import opened Common

  const TWO_63: int := 0x8000_0000_0000_0000
  const TWO_64: int := 0x1_0000_0000_0000_0000

  function Pow16(n: nat): (p: nat)
    ensures p >= 1
  {
    if n == 0 then 1 else 16 * Pow16(n - 1)
  }

  /** The value of one digit for int(_, 16): 0-9, a-f and A-F. */
  function HexDigit(c: char): (r: Option<nat>)
    ensures r.Some? ==> r.value < 16
  {
    if '0' <= c <= '9' then Some(c as int - '0' as int)
    else if 'a' <= c <= 'f' then Some(c as int - 'a' as int + 10)
    else if 'A' <= c <= 'F' then Some(c as int - 'A' as int + 10)
    else None
  }

  predicate IsHex(s: string) {
    forall k :: 0 <= k < |s| ==> HexDigit(s[k]).Some?
  }

  /** int(s, 16) on a bare hex digit string: None (a ValueError) for an empty
      string or a non-hex character. Python also accepts surrounding
      whitespace, a sign, a "0x" prefix and underscores; the model covers
      bare digit strings only, which is what the chunk ids hold. */
  function HexValue(s: string): (r: Option<nat>)
    ensures r.Some? <==> s != [] && IsHex(s)
    ensures r.Some? ==> r.value < Pow16(|s|)
  {
    if s == [] then None
    else
      var d := HexDigit(s[|s| - 1]);
      if d.None? then None
      else if |s| == 1 then d
      else match HexValue(s[..|s| - 1])
        case None => None
        case Some(v) => Some(16 * v + d.value)
  }

  /** chunk_id_hex40[-16:] */
  function Suffix16(id: string): (r: string)
    ensures |r| == Min(|id|, 16) && r == id[|id| - |r|..]
  {
    if |id| <= 16 then id else id[|id| - 16..]
  }

  /** chunk_id_hex40[:16] */
  function Prefix16(id: string): (r: string)
    ensures |r| == Min(|id|, 16) && r == id[..|r|]
  {
    if |id| <= 16 then id else id[..16]
  }

  /** x -= 1 << 64 when x >= 1 << 63 */
  function ToSigned64(x: nat): int {
    if x >= TWO_63 then x - TWO_64 else x
  }

  /** chunk_id_to_int64 of src/utils/ids.py. */
  function IdsChunkIdToInt64(id: string): Result<int> {
    match HexValue(Suffix16(id))
    case None => Err("invalid literal for int() with base 16")
    case Some(x) => Ok(ToSigned64(x))
  }

  /** chunk_id_to_int64 of src/embed.py. */
  function EmbedChunkIdToInt64(id: string): Result<int> {
    match HexValue(Prefix16(id))
    case None => Err("invalid literal for int() with base 16")
    case Some(x) => Ok(x - TWO_63)
  }

  lemma Pow16Of16()
    ensures Pow16(16) == TWO_64
  {
    assert Pow16(4) == 0x1_0000;
    assert Pow16(8) == 0x1_0000 * Pow16(4) by { Pow16Four(4); }
    assert Pow16(12) == 0x1_0000 * Pow16(8) by { Pow16Four(8); }
    assert Pow16(16) == 0x1_0000 * Pow16(12) by { Pow16Four(12); }
  }

  lemma Pow16Four(n: nat)
    ensures Pow16(n + 4) == 0x1_0000 * Pow16(n)
  {
    assert Pow16(n + 4) == 16 * Pow16(n + 3);
    assert Pow16(n + 3) == 16 * Pow16(n + 2);
    assert Pow16(n + 2) == 16 * Pow16(n + 1);
  }

  // ---------------------------------------------------------------------------
  // src/utils/ids.py
  // ---------------------------------------------------------------------------

  /** The result is a signed 64-bit integer, and exactly when the id's last
      16 characters are hex digits. */
  lemma IdsInRange(id: string)
    ensures IdsChunkIdToInt64(id).Ok? <==> Suffix16(id) != [] && IsHex(Suffix16(id))
    ensures IdsChunkIdToInt64(id).Ok? ==> -TWO_63 <= IdsChunkIdToInt64(id).value < TWO_63
  {
    Pow16Of16();
    if HexValue(Suffix16(id)).Some? {
      Pow16Monotone(|Suffix16(id)|, 16);
    }
  }

  lemma {:induction false} Pow16Monotone(m: nat, n: nat)
    requires m <= n
    ensures Pow16(m) <= Pow16(n)
    decreases n
  {
    if m < n {
      Pow16Monotone(m, n - 1);
    }
  }

  /** ToSigned64 is the two's-complement reading of a 64-bit pattern: it
      keeps a value below 2^63, and agrees with the pattern modulo 2^64. */
  lemma TwosComplement(x: nat)
    requires x < TWO_64
    ensures x < TWO_63 <==> ToSigned64(x) == x
    ensures ToSigned64(x) % TWO_64 == x
    ensures -TWO_63 <= ToSigned64(x) < TWO_63
  {
  }

  /** Only the last 16 characters matter: any prefix may come before them. */
  lemma IdsSuffixOnly(p: string, h: string)
    requires |h| == 16
    ensures IdsChunkIdToInt64(p + h) == IdsChunkIdToInt64(h)
  {
    assert Suffix16(p + h) == h;
  }

  predicate IsLowerHex(s: string) {
    forall k :: 0 <= k < |s| ==> ('0' <= s[k] <= '9' || 'a' <= s[k] <= 'f')
  }

  lemma DigitSplit(v1: nat, d1: nat, v2: nat, d2: nat)
    requires d1 < 16 && d2 < 16 && 16 * v1 + d1 == 16 * v2 + d2
    ensures v1 == v2 && d1 == d2
  {
  }

  /** Equal-length lower-case hex strings with the same value are equal. */
  lemma {:induction false} HexValueInjective(s: string, t: string)
    requires |s| == |t| && IsLowerHex(s) && IsLowerHex(t)
    requires HexValue(s).Some? && HexValue(s) == HexValue(t)
    ensures s == t
    decreases |s|
  {
    var n := |s|;
    var ds := HexDigit(s[n - 1]).value;
    var dt := HexDigit(t[n - 1]).value;
    if n == 1 {
      assert ds == dt;
    } else {
      var vs := HexValue(s[..n - 1]).value;
      var vt := HexValue(t[..n - 1]).value;
      DigitSplit(vs, ds, vt, dt);
      HexValueInjective(s[..n - 1], t[..n - 1]);
      assert s == s[..n - 1] + [s[n - 1]];
      assert t == t[..n - 1] + [t[n - 1]];
    }
  }

  lemma ToSigned64Injective(x: nat, y: nat)
    requires x < TWO_64 && y < TWO_64 && ToSigned64(x) == ToSigned64(y)
    ensures x == y
  {
  }

  /** Two chunk ids (sha1 hexdigests are lower-case hex) with the same int64
      have the same last 16 digits. */
  lemma IdsInjective(a: string, b: string)
    requires |a| >= 16 && |b| >= 16
    requires IsLowerHex(Suffix16(a)) && IsLowerHex(Suffix16(b))
    requires IdsChunkIdToInt64(a).Ok? && IdsChunkIdToInt64(a) == IdsChunkIdToInt64(b)
    ensures Suffix16(a) == Suffix16(b)
  {
    var sa, sb := Suffix16(a), Suffix16(b);
    Pow16Of16();
    var xa, xb := HexValue(sa).value, HexValue(sb).value;
    ToSigned64Injective(xa, xb);
    HexValueInjective(sa, sb);
  }

  // ---------------------------------------------------------------------------
  // src/embed.py
  // ---------------------------------------------------------------------------

  /** The result is prefix value - 2^63, a signed 64-bit integer. */
  lemma EmbedInRange(id: string)
    ensures EmbedChunkIdToInt64(id).Ok? <==> Prefix16(id) != [] && IsHex(Prefix16(id))
    ensures EmbedChunkIdToInt64(id).Ok? ==>
      EmbedChunkIdToInt64(id).value + TWO_63 == HexValue(Prefix16(id)).value
      && -TWO_63 <= EmbedChunkIdToInt64(id).value < TWO_63
  {
    Pow16Of16();
    if HexValue(Prefix16(id)).Some? {
      Pow16Monotone(|Prefix16(id)|, 16);
    }
  }

  /** Only the first 16 characters matter. */
  lemma EmbedPrefixOnly(h: string, q: string)
    requires |h| == 16
    ensures EmbedChunkIdToInt64(h + q) == EmbedChunkIdToInt64(h)
  {
    assert Prefix16(h + q) == h;
  }

  /** The encoding is strictly order-preserving in the prefix value. */
  lemma EmbedMonotone(a: string, b: string)
    requires HexValue(Prefix16(a)).Some? && HexValue(Prefix16(b)).Some?
    ensures HexValue(Prefix16(a)).value < HexValue(Prefix16(b)).value <==>
      EmbedChunkIdToInt64(a).value < EmbedChunkIdToInt64(b).value
  {
  }

  function Repeat(c: char, n: nat): (r: string)
    ensures |r| == n && forall k :: 0 <= k < n ==> r[k] == c
  {
    if n == 0 then [] else Repeat(c, n - 1) + [c]
  }

  /** n zeros read as hex is 0; n 'f's is 16^n - 1. */
  lemma {:induction false} HexOfRepeat(n: nat)
    requires n >= 1
    ensures HexValue(Repeat('0', n)) == Some(0)
    ensures HexValue(Repeat('f', n)) == Some(Pow16(n) - 1)
  {
    if n > 1 {
      HexOfRepeat(n - 1);
      assert Repeat('0', n)[..n - 1] == Repeat('0', n - 1);
      assert Repeat('f', n)[..n - 1] == Repeat('f', n - 1);
    }
  }

  /** An all-zero prefix maps to -2^63 and an all-f prefix to 2^63 - 1. */
  lemma EmbedExtremes(q: string)
    ensures EmbedChunkIdToInt64(Repeat('0', 16) + q) == Ok(-TWO_63)
    ensures EmbedChunkIdToInt64(Repeat('f', 16) + q) == Ok(TWO_63 - 1)
  {
    HexOfRepeat(16);
    Pow16Of16();
    EmbedPrefixOnly(Repeat('0', 16), q);
    EmbedPrefixOnly(Repeat('f', 16), q);
  }

  /** The two encodings disagree: the all-zero 40-digit id is 0 for one and
      -2^63 for the other. */
  lemma EncodingsDiffer()
    ensures IdsChunkIdToInt64(Repeat('0', 40)) == Ok(0)
    ensures EmbedChunkIdToInt64(Repeat('0', 40)) == Ok(-TWO_63)
  {
    var z16 := Repeat('0', 16);
    var z := Repeat('0', 40);
    assert z == Repeat('0', 24) + z16 == z16 + Repeat('0', 24);
    HexOfRepeat(16);
    IdsSuffixOnly(Repeat('0', 24), z16);
    EmbedPrefixOnly(z16, Repeat('0', 24));
  }
}
