/** Minted keys: mcp_ and the 32 hex digits of a random version-4 UUID (section 4.4 of RFC 4122). */
module KeyFormat {

  const DIGITS := "0123456789abcdef"

  /** ^mcp_[0-9a-f]{32}$ */
  predicate ValidFormat(key: string) {
    |key| == 36 && key[..4] == "mcp_" && forall i :: 4 <= i < 36 ==> key[i] in DIGITS
  }

  function HexByte(b: bv8): (s: string)
    ensures |s| == 2 && s[0] in DIGITS && s[1] in DIGITS
  {
    [DIGITS[(b >> 4) as int], DIGITS[(b & 0x0f) as int]]
  }

  lemma DigitExactly(c: char)
    ensures c in DIGITS <==> '0' <= c <= '9' || 'a' <= c <= 'f'
  {
    assert '0' <= c <= '9' ==> DIGITS[c as int - '0' as int] == c;
    assert 'a' <= c <= 'f' ==> DIGITS[c as int - 'a' as int + 10] == c;
  }

  /** mcp_ and 32 lower-case hex digits, nothing else. */
  lemma FormatExactly(key: string)
    ensures ValidFormat(key) <==>
              |key| == 36 && key[..4] == "mcp_" && forall i :: 4 <= i < 36 ==> '0' <= key[i] <= '9' || 'a' <= key[i] <= 'f'
  {
    forall i | 4 <= i < |key|
      ensures key[i] in DIGITS <==> '0' <= key[i] <= '9' || 'a' <= key[i] <= 'f'
    {
      DigitExactly(key[i]);
    }
  }

  /** The two digits of a byte, the high half first. */
  lemma HexByteReads(b: bv8)
    ensures forall k :: k == 0 || k == 1 ==>
              var half := if k == 0 then (b >> 4) as int else (b & 0x0f) as int;
              HexByte(b)[k] as int == if half < 10 then '0' as int + half else 'a' as int + half - 10
  {
    NibbleReads((b >> 4) as int);
    NibbleReads((b & 0x0f) as int);
  }

  lemma NibbleReads(n: nat)
    requires n < 16
    ensures DIGITS[n] as int == if n < 10 then '0' as int + n else 'a' as int + n - 10
  {
  }

  function Hex(bytes: seq<bv8>): (s: string)
    ensures |s| == 2 * |bytes|
    ensures forall i :: 0 <= i < |s| ==> s[i] in DIGITS
  {
    if bytes == [] then "" else HexByte(bytes[0]) + Hex(bytes[1..])
  }

  lemma {:induction false} HexAt(bytes: seq<bv8>, i: nat)
    requires i < |bytes|
    ensures Hex(bytes)[2 * i..2 * i + 2] == HexByte(bytes[i])
  {
    var first, rest := HexByte(bytes[0]), Hex(bytes[1..]);
    if i == 0 {
      assert (first + rest)[..2] == first;
    } else {
      HexAt(bytes[1..], i - 1);
      SliceAfter(first, rest, 2 * (i - 1));
    }
  }

  lemma SliceAfter(first: string, rest: string, from: nat)
    requires |first| == 2 && from + 2 <= |rest|
    ensures (first + rest)[from + 2..from + 4] == rest[from..from + 2]
  {
  }

  lemma DigitsDiffer(m: nat, n: nat)
    requires m < 16 && n < 16 && DIGITS[m] == DIGITS[n]
    ensures m == n
  {
  }

  lemma HexByteInjective(a: bv8, b: bv8)
    requires HexByte(a) == HexByte(b)
    ensures a == b
  {
    assert HexByte(a)[0] == HexByte(b)[0] && HexByte(a)[1] == HexByte(b)[1];
    DigitsDiffer((a >> 4) as int, (b >> 4) as int);
    DigitsDiffer((a & 0x0f) as int, (b & 0x0f) as int);
  }

  function Stamp(bytes: seq<bv8>): seq<bv8>
    requires |bytes| == 16
  {
    bytes[6 := (bytes[6] & 0x0f) | 0x40][8 := (bytes[8] & 0x3f) | 0x80]
  }

  /** b holds sixteen random bytes; its version and variant bits are overwritten in place. */
  method GenerateKey(b: array<bv8>) returns (key: string)
    requires b.Length == 16
    modifies b
    ensures b[..] == Stamp(old(b[..]))
    ensures key == "mcp_" + Hex(b[..])
    ensures ValidFormat(key)
  {
    b[6] := (b[6] & 0x0f) | 0x40;
    b[8] := (b[8] & 0x3f) | 0x80;
    key := "mcp_" + Hex(b[..]);
  }

  /** Every minted key reads as a version-4, variant-10 UUID. */
  lemma VersionAndVariant(bytes: seq<bv8>)
    requires |bytes| == 16
    ensures Hex(Stamp(bytes))[12] == '4' && Hex(Stamp(bytes))[16] in "89ab"
  {
    HexAt(Stamp(bytes), 6);
    HexAt(Stamp(bytes), 8);
    assert (((bytes[6] & 0x0f) | 0x40) >> 4) == 4;
    var v := ((bytes[8] & 0x3f) | 0x80) >> 4;
    assert v == 8 || v == 9 || v == 10 || v == 11;
    var hex := Hex(Stamp(bytes));
    assert hex[12] == hex[12..14][0] && hex[16] == hex[16..18][0];
  }

  lemma HexInjective(x: seq<bv8>, y: seq<bv8>)
    requires |x| == |y| && Hex(x) == Hex(y)
    ensures x == y
  {
    forall i | 0 <= i < |x|
      ensures x[i] == y[i]
    {
      HexAt(x, i);
      HexAt(y, i);
      HexByteInjective(x[i], y[i]);
    }
  }

  lemma StampedBits(x: bv8, y: bv8)
    ensures (x & 0x0f) | 0x40 == (y & 0x0f) | 0x40 <==> x & 0x0f == y & 0x0f
    ensures (x & 0x3f) | 0x80 == (y & 0x3f) | 0x80 <==> x & 0x3f == y & 0x3f
  {
  }

  predicate AgreeOutsideStamp(a: seq<bv8>, b: seq<bv8>)
    requires |a| == |b| == 16
  {
    && (forall i :: 0 <= i < 16 && i != 6 && i != 8 ==> a[i] == b[i])
    && a[6] & 0x0f == b[6] & 0x0f && a[8] & 0x3f == b[8] & 0x3f
  }

  lemma StampForgets(a: seq<bv8>, b: seq<bv8>)
    requires |a| == |b| == 16 && AgreeOutsideStamp(a, b)
    ensures Stamp(a) == Stamp(b)
  {
    StampedBits(a[6], b[6]);
    StampedBits(a[8], b[8]);
  }

  lemma StampKeeps(a: seq<bv8>, b: seq<bv8>)
    requires |a| == |b| == 16 && Stamp(a) == Stamp(b)
    ensures AgreeOutsideStamp(a, b)
  {
    var x, y := Stamp(a), Stamp(b);
    StampedBits(a[6], b[6]);
    StampedBits(a[8], b[8]);
    assert x[6] == y[6] && x[8] == y[8];
    assert forall i :: 0 <= i < 16 && i != 6 && i != 8 ==> a[i] == x[i] && b[i] == y[i];
  }

  /** Two draws give the same key exactly when they agree on the 122 bits the stamp leaves alone. */
  lemma SameKeyExactly(a: seq<bv8>, b: seq<bv8>)
    requires |a| == |b| == 16
    ensures Hex(Stamp(a)) == Hex(Stamp(b)) <==> AgreeOutsideStamp(a, b)
  {
    if Hex(Stamp(a)) == Hex(Stamp(b)) {
      HexInjective(Stamp(a), Stamp(b));
      StampKeeps(a, b);
    }
    if AgreeOutsideStamp(a, b) {
      StampForgets(a, b);
    }
  }
}
