/** `PaymentService.validateWebhookSignature`: the `x-signature` header is split into `key=value`
    fields, the last `ts` and `v1` are kept, and `v1` must equal the lowercase hex rendering of
    the keyed hash of the manifest `id:<data id>;request-id:<request id>;ts:<ts>;`. The keyed hash
    (HMAC over SHA-256, RFC 2104 and FIPS 180-4) and `String.getBytes` are parameters. */
module WebhookSignature {
  import opened Common

  type byte = b: int | 0 <= b < 256

  // ---------------------------------------------------------------------------------------------
  // Splitting strings as `String.split` does for a one-character separator

  function IndexOf(s: string, c: char): (k: nat)
    requires c in s
    ensures k < |s| && s[k] == c && c !in s[..k]
  {
    if s[0] == c then 0
    else
      var k := 1 + IndexOf(s[1..], c);
      assert s[..k] == [s[0]] + s[1..][..k - 1];
      k
  }

  /** The strings between the separators, in order, empty ones included. */
  function Pieces(s: string, sep: char): (ps: seq<string>)
    ensures |ps| >= 1
    ensures forall i :: 0 <= i < |ps| ==> sep !in ps[i]
    decreases |s|
  {
    if sep !in s then [s]
    else
      var k := IndexOf(s, sep);
      [s[..k]] + Pieces(s[k + 1..], sep)
  }

  function Join(ps: seq<string>, sep: char): string
    requires |ps| >= 1
  {
    if |ps| == 1 then ps[0] else ps[0] + [sep] + Join(ps[1..], sep)
  }

  /** Splitting loses nothing: joining the pieces with the separator gives the string back. */
  lemma {:induction false} JoinPieces(s: string, sep: char)
    ensures Join(Pieces(s, sep), sep) == s
    decreases |s|
  {
    if sep in s {
      var k := IndexOf(s, sep);
      var rest := Pieces(s[k + 1..], sep);
      assert ([s[..k]] + rest)[1..] == rest;
      JoinPieces(s[k + 1..], sep);
      assert s == s[..k] + [sep] + s[k + 1..];
    }
  }

  /** Trailing empty strings removed, as `split` with no limit does. */
  function DropTrailingEmpty(ps: seq<string>): (r: seq<string>)
    ensures |r| <= |ps| && r == ps[..|r|]
    ensures r == [] || r[|r| - 1] != []
    ensures forall i :: |r| <= i < |ps| ==> ps[i] == []
  {
    if ps != [] && ps[|ps| - 1] == [] then DropTrailingEmpty(ps[..|ps| - 1]) else ps
  }

  /** `s.split(sep)`: without a separator the string itself; otherwise the pieces without the
      trailing empty ones (so `","` splits into no pieces at all). */
  function JavaSplit(s: string, sep: char): (ps: seq<string>)
    ensures forall i :: 0 <= i < |ps| ==> sep !in ps[i]
  {
    if sep !in s then [s] else DropTrailingEmpty(Pieces(s, sep))
  }

  /** The first occurrence is the one no earlier position holds. */
  lemma IndexOfFirst(s: string, c: char, k: nat)
    requires k < |s| && s[k] == c && c !in s[..k]
    ensures IndexOf(s, c) == k
  {
    var j := IndexOf(s, c);
    assert forall i :: 0 <= i < k ==> s[..k][i] == s[i];
    assert forall i :: 0 <= i < j ==> s[..j][i] == s[i];
  }

  lemma IndexAfter(a: string, sep: char, b: string)
    requires sep !in a
    ensures IndexOf(a + [sep] + b, sep) == |a|
  {
    var s := a + [sep] + b;
    assert s[..|a|] == a;
    IndexOfFirst(s, sep, |a|);
  }

  lemma SplitTwo(a: string, b: string, sep: char)
    requires sep !in a && sep !in b && b != []
    ensures JavaSplit(a + [sep] + b, sep) == [a, b]
  {
    var s := a + [sep] + b;
    IndexAfter(a, sep, b);
    assert s[..|a|] == a && s[|a| + 1..] == b;
    assert Pieces(b, sep) == [b];
    assert Pieces(s, sep) == [a, b];
  }

  // ---------------------------------------------------------------------------------------------
  // The header fields

  datatype Field = Field(key: string, value: string)

  /** `part.split("=", 2)` and, when it gives two pieces, both trimmed: the key is what precedes
      the first `=`, the value everything after it. */
  function ParseField(part: string): Option<Field>
  {
    if '=' !in part then None
    else
      var k := IndexOf(part, '=');
      Some(Field(Trim(part[..k]), Trim(part[k + 1..])))
  }

  /** Each part of the header, parsed. */
  function Fields(parts: seq<string>): (fs: seq<Option<Field>>)
    ensures |fs| == |parts|
    ensures forall i :: 0 <= i < |parts| ==> fs[i] == ParseField(parts[i])
  {
    seq(|parts|, i requires 0 <= i < |parts| => ParseField(parts[i]))
  }

  predicate HasKey(f: Option<Field>, key: string)
  {
    f.Some? && f.value.key == key
  }

  /** The value of the last field with the given key: what the loop's repeated assignment keeps. */
  function LastValue(fs: seq<Option<Field>>, key: string): Option<string>
  {
    if fs == [] then None
    else
      var n := |fs| - 1;
      if HasKey(fs[n], key) then Some(fs[n].value.value) else LastValue(fs[..n], key)
  }

  /** Field `i` is the last one with the key, and the lookup returns its value. */
  predicate LastAt(fs: seq<Option<Field>>, key: string, i: int)
  {
    && 0 <= i < |fs| && HasKey(fs[i], key)
    && LastValue(fs, key) == Some(fs[i].value.value)
    && forall j :: i < j < |fs| ==> !HasKey(fs[j], key)
  }

  /** The last field with the key wins: there is a value exactly when some field has the key,
      and it is the value of the last such field. */
  lemma {:induction false} LastValueIsLast(fs: seq<Option<Field>>, key: string)
    ensures LastValue(fs, key).None? <==> forall i :: 0 <= i < |fs| ==> !HasKey(fs[i], key)
    ensures LastValue(fs, key).Some? ==> exists i :: LastAt(fs, key, i)
  {
    if fs != [] {
      var n := |fs| - 1;
      if HasKey(fs[n], key) {
        assert LastAt(fs, key, n);
      } else {
        LastValueIsLast(fs[..n], key);
        assert forall i :: 0 <= i < n ==> fs[..n][i] == fs[i];
        if LastValue(fs, key).Some? {
          var i :| LastAt(fs[..n], key, i);
          assert LastAt(fs, key, i);
        }
      }
    }
  }

  /** One more field: it wins when it has the key. */
  lemma LastValueStep(fs: seq<Option<Field>>, key: string, i: nat)
    requires i < |fs|
    ensures LastValue(fs[..i + 1], key) == if HasKey(fs[i], key) then Some(fs[i].value.value) else LastValue(fs[..i], key)
  {
    assert fs[..i + 1][..i] == fs[..i];
  }

  /** The `for` loop over the header's parts, reassigning `ts` and `hash` at each match. */
  method ScanSignatureHeader(parts: seq<string>) returns (ts: Option<string>, hash: Option<string>)
    ensures ts == LastValue(Fields(parts), "ts")
    ensures hash == LastValue(Fields(parts), "v1")
  {
    ts := None;
    hash := None;
    ghost var fs := Fields(parts);
    var i := 0;
    while i < |parts|
      invariant 0 <= i <= |parts|
      invariant ts == LastValue(fs[..i], "ts")
      invariant hash == LastValue(fs[..i], "v1")
    {
      LastValueStep(fs, "ts", i);
      LastValueStep(fs, "v1", i);
      var kv := ParseField(parts[i]);
      if kv.Some? {
        if kv.value.key == "ts" {
          ts := Some(kv.value.value);
        }
        if kv.value.key == "v1" {
          hash := Some(kv.value.value);
        }
      }
      i := i + 1;
    }
    assert fs[..|parts|] == fs;
  }

  // ---------------------------------------------------------------------------------------------
  // Manifest and hex

  /** `String.format("%s", x)` renders a null `x` as "null". */
  function Rendered(s: Option<string>): string
  {
    if s.None? then "null" else s.value
  }

  /** `String.format("id:%s;request-id:%s;ts:%s;", dataId, xRequestId, ts)`. */
  function Manifest(dataId: Option<string>, requestId: Option<string>, ts: string): string
  {
    "id:" + Rendered(dataId) + ";request-id:" + Rendered(requestId) + ";ts:" + ts + ";"
  }

  const HexDigits: string := "0123456789abcdef"

  /** `String.format("%02x", b)`: two lowercase hex digits of the unsigned byte. */
  function HexByte(b: byte): (s: string)
    ensures |s| == 2
  {
    [HexDigits[b / 16], HexDigits[b % 16]]
  }

  function Hex(bs: seq<byte>): (s: string)
    ensures |s| == 2 * |bs|
  {
    if bs == [] then [] else Hex(bs[..|bs| - 1]) + HexByte(bs[|bs| - 1])
  }

  /** The value of one lowercase hex digit; anything else (an uppercase digit included) has none. */
  function HexValue(c: char): (r: Option<nat>)
    ensures r.Some? ==> r.value < 16
  {
    if '0' <= c <= '9' then Some(c as int - '0' as int)
    else if 'a' <= c <= 'f' then Some(c as int - 'a' as int + 10)
    else None
  }

  /** Two lowercase hex digits read as one byte, the first the high half. */
  function HexPair(hi: char, lo: char): Option<byte>
  {
    match (HexValue(hi), HexValue(lo))
    case (Some(h), Some(l)) => Some(h * 16 + l)
    case _ => None
  }

  /** Reading lowercase hex back into bytes, two digits per byte. */
  function HexDecode(s: string): Option<seq<byte>>
  {
    if |s| < 2 then (if s == [] then Some([]) else None)
    else
      match HexDecode(s[..|s| - 2])
      case None => None
      case Some(prefix) =>
        match HexPair(s[|s| - 2], s[|s| - 1])
        case None => None
        case Some(b) => Some(prefix + [b])
  }

  lemma HexByteDigits(b: byte)
    ensures HexValue(HexByte(b)[0]) == Some(b / 16)
    ensures HexValue(HexByte(b)[1]) == Some(b % 16)
  {
  }

  /** Two more digits read back one more byte. */
  lemma HexDecodeAppend(s: string, b: byte)
    ensures HexDecode(s + HexByte(b)) == if HexDecode(s).Some? then Some(HexDecode(s).value + [b]) else None
  {
    var t := s + HexByte(b);
    assert t[..|t| - 2] == s;
    assert t[|t| - 2] == HexByte(b)[0] && t[|t| - 1] == HexByte(b)[1];
    HexPairOfByte(b);
  }

  lemma HexPairOfByte(b: byte)
    ensures HexPair(HexByte(b)[0], HexByte(b)[1]) == Some(b)
  {
    HexByteDigits(b);
  }

  lemma BytesSplitLast(bs: seq<byte>)
    requires bs != []
    ensures bs[..|bs| - 1] + [bs[|bs| - 1]] == bs
  {
  }

  /** Decoding the hex rendering gives the bytes back. */
  lemma {:induction false} HexRoundTrip(bs: seq<byte>)
    ensures HexDecode(Hex(bs)) == Some(bs)
  {
    if bs != [] {
      var n := |bs| - 1;
      HexRoundTrip(bs[..n]);
      HexDecodeAppend(Hex(bs[..n]), bs[n]);
      BytesSplitLast(bs);
    }
  }

  /** Two byte strings with the same hex rendering are equal. */
  lemma HexInjective(a: seq<byte>, b: seq<byte>)
    requires Hex(a) == Hex(b)
    ensures a == b
  {
    HexRoundTrip(a);
    HexRoundTrip(b);
  }

  /** The `StringBuilder` loop appending two hex digits per byte. */
  method HexEncode(bs: seq<byte>) returns (s: string)
    ensures s == Hex(bs)
  {
    s := "";
    var i := 0;
    while i < |bs|
      invariant 0 <= i <= |bs|
      invariant s == Hex(bs[..i])
    {
      assert bs[..i + 1][..i] == bs[..i];
      s := s + HexByte(bs[i]);
      i := i + 1;
    }
    assert bs[..|bs|] == bs;
  }

  // ---------------------------------------------------------------------------------------------
  // The decision

  /** The keyed hash, as a function of the key bytes and the message bytes. */
  type Mac = (seq<byte>, seq<byte>) -> seq<byte>

  /** `String.getBytes()` in the platform charset. */
  type Encoder = string -> seq<byte>

  /** Whether `validateWebhookSignature` returns true. A null header, a header without `ts` or
      `v1`, a null secret and an empty key (which the key constructor refuses) all end in the
      catch-all `false`. */
  function SignatureValid(header: Option<string>, requestId: Option<string>, dataId: Option<string>,
                          secret: Option<string>, mac: Mac, bytesOf: Encoder): bool
  {
    if header.None? then false
    else
      var fs := Fields(JavaSplit(header.value, ','));
      var ts := LastValue(fs, "ts");
      var v1 := LastValue(fs, "v1");
      if ts.None? || v1.None? then false
      else if secret.None? || bytesOf(secret.value) == [] then false
      else Hex(mac(bytesOf(secret.value), bytesOf(Manifest(dataId, requestId, ts.value)))) == v1.value
  }

  method ValidateWebhookSignature(header: Option<string>, requestId: Option<string>, dataId: Option<string>,
                                  secret: Option<string>, mac: Mac, bytesOf: Encoder) returns (ok: bool)
    ensures ok == SignatureValid(header, requestId, dataId, secret, mac, bytesOf)
  {
    if header.None? {
      return false;
    }
    var parts := JavaSplit(header.value, ',');
    var ts, hash := ScanSignatureHeader(parts);
    if ts.None? || hash.None? {
      return false;
    }
    var manifest := Manifest(dataId, requestId, ts.value);
    if secret.None? || bytesOf(secret.value) == [] {
      return false;
    }
    var digest := mac(bytesOf(secret.value), bytesOf(manifest));
    var hex := HexEncode(digest);
    return hex == hash.value;
  }

  /** A signature is accepted only when the header has a `ts` field and its last `v1` field
      is the hex of exactly the keyed hash of the manifest built from the last `ts`. */
  lemma AcceptedSignatureMatches(header: Option<string>, requestId: Option<string>, dataId: Option<string>,
                                 secret: Option<string>, mac: Mac, bytesOf: Encoder)
    requires SignatureValid(header, requestId, dataId, secret, mac, bytesOf)
    ensures header.Some? && secret.Some? && bytesOf(secret.value) != []
    ensures var fs := Fields(JavaSplit(header.value, ','));
      && (exists i :: 0 <= i < |fs| && HasKey(fs[i], "ts"))
      && LastValue(fs, "v1").Some?
      && HexDecode(LastValue(fs, "v1").value)
         == Some(mac(bytesOf(secret.value), bytesOf(Manifest(dataId, requestId, LastValue(fs, "ts").value))))
  {
    var fs := Fields(JavaSplit(header.value, ','));
    LastValueIsLast(fs, "ts");
    HexRoundTrip(mac(bytesOf(secret.value), bytesOf(Manifest(dataId, requestId, LastValue(fs, "ts").value))));
  }

  /** The header the gateway sends, `ts=<t>,v1=<hex of the keyed hash>`, is accepted when the
      key is not empty and the timestamp has no comma and no surrounding blanks. */
  lemma SenderSignatureAccepted(t: string, requestId: Option<string>, dataId: Option<string>,
                                secret: string, mac: Mac, bytesOf: Encoder)
    requires ',' !in t && IsTrimmed(t)
    requires bytesOf(secret) != []
    ensures var h := Hex(mac(bytesOf(secret), bytesOf(Manifest(dataId, requestId, t))));
      SignatureValid(Some("ts=" + t + ",v1=" + h), requestId, dataId, Some(secret), mac, bytesOf)
  {
    var h := Hex(mac(bytesOf(secret), bytesOf(Manifest(dataId, requestId, t))));
    HexHasNoSeparators(mac(bytesOf(secret), bytesOf(Manifest(dataId, requestId, t))));
    TwoFieldHeader(t, h);
  }

  lemma {:induction false} HexHasNoSeparators(bs: seq<byte>)
    ensures ',' !in Hex(bs)
    ensures IsTrimmed(Hex(bs))
    ensures forall i :: 0 <= i < |Hex(bs)| ==> HexValue(Hex(bs)[i]).Some?
  {
    if bs != [] {
      HexHasNoSeparators(bs[..|bs| - 1]);
      HexByteDigits(bs[|bs| - 1]);
    }
  }

  /** Any other `v1` is refused: a header whose `v1` differs from the hex of the expected keyed
      hash, such as one in uppercase hex, is rejected. */
  lemma TamperedSignatureRejected(t: string, v1: string, requestId: Option<string>, dataId: Option<string>,
                                  secret: string, mac: Mac, bytesOf: Encoder)
    requires ',' !in t && IsTrimmed(t) && ',' !in v1 && IsTrimmed(v1)
    requires v1 != Hex(mac(bytesOf(secret), bytesOf(Manifest(dataId, requestId, t))))
    ensures !SignatureValid(Some("ts=" + t + ",v1=" + v1), requestId, dataId, Some(secret), mac, bytesOf)
  {
    TwoFieldHeader(t, v1);
  }

  /** `key=value` parses to the trimmed key and value when the key has no `=`. */
  lemma ParseKeyValue(key: string, value: string)
    requires '=' !in key
    ensures ParseField(key + "=" + value) == Some(Field(Trim(key), Trim(value)))
  {
    assert key + "=" + value == key + ['='] + value;
    IndexAfter(key, '=', value);
    var s := key + ['='] + value;
    assert s[..|key|] == key && s[|key| + 1..] == value;
  }

  /** `key=value` with a trimmed key and value parses to exactly that key and value. */
  lemma ParseTrimmedField(key: string, value: string)
    requires '=' !in key && key != [] && IsTrimmed(key) && IsTrimmed(value)
    ensures ParseField(key + "=" + value) == Some(Field(key, value))
  {
    ParseKeyValue(key, value);
    TrimOfTrimmed(key);
    TrimOfTrimmed(value);
  }

  lemma NoCommaIn(prefix: string, s: string)
    requires ',' !in prefix && ',' !in s
    ensures ',' !in prefix + s
  {
    assert forall i :: |prefix| <= i < |prefix + s| ==> (prefix + s)[i] == s[i - |prefix|];
  }

  /** Two comma-free parts joined by a comma split back into those parts, each parsed. */
  lemma TwoParts(a: string, b: string)
    requires ',' !in a && ',' !in b && b != []
    ensures Fields(JavaSplit(a + [','] + b, ',')) == [ParseField(a), ParseField(b)]
  {
    SplitTwo(a, b, ',');
  }

  /** A trimmed key and value with no separators in them, written `key=value`. */
  predicate PlainField(key: string, value: string)
  {
    '=' !in key && key != [] && IsTrimmed(key) && IsTrimmed(value) && ',' !in key && ',' !in value
  }

  /** The header `k1=v1,k2=v2` parses into exactly those two fields. */
  lemma HeaderFields(k1: string, v1: string, k2: string, v2: string)
    requires PlainField(k1, v1) && PlainField(k2, v2)
    ensures Fields(JavaSplit(k1 + "=" + v1 + "," + k2 + "=" + v2, ','))
      == [Some(Field(k1, v1)), Some(Field(k2, v2))]
  {
    var a := k1 + "=" + v1;
    var b := k2 + "=" + v2;
    assert k1 + "=" + v1 + "," + k2 + "=" + v2 == a + [','] + b;
    NoCommaIn(k1 + "=", v1);
    NoCommaIn(k2 + "=", v2);
    TwoParts(a, b);
    ParseTrimmedField(k1, v1);
    ParseTrimmedField(k2, v2);
  }

  /** Of two fields, the later one wins when it has the key. */
  lemma LastOfTwo(f1: Field, f2: Field, key: string)
    ensures LastValue([Some(f1), Some(f2)], key)
      == if f2.key == key then Some(f2.value) else if f1.key == key then Some(f1.value) else None
  {
    var fs := [Some(f1), Some(f2)];
    assert fs[..1] == [Some(f1)];
    assert [Some(f1)][..0] == [];
    assert LastValue([Some(f1)], key) == if f1.key == key then Some(f1.value) else None;
    assert LastValue(fs, key) == if f2.key == key then Some(f2.value) else LastValue([Some(f1)], key);
  }

  /** In the header `k1=v1,k2=v2` the later field wins when it has the key. */
  lemma HeaderLast(k1: string, v1: string, k2: string, v2: string, key: string)
    requires PlainField(k1, v1) && PlainField(k2, v2)
    ensures LastValue(Fields(JavaSplit(k1 + "=" + v1 + "," + k2 + "=" + v2, ',')), key)
      == if k2 == key then Some(v2) else if k1 == key then Some(v1) else None
  {
    HeaderFields(k1, v1, k2, v2);
    LastOfTwo(Field(k1, v1), Field(k2, v2), key);
  }

  /** The header `ts=<t>,v1=<h>` yields exactly `t` and `h`. */
  lemma TwoFieldHeader(t: string, h: string)
    requires ',' !in t && IsTrimmed(t) && ',' !in h && IsTrimmed(h)
    ensures LastValue(Fields(JavaSplit("ts=" + t + ",v1=" + h, ',')), "ts") == Some(t)
    ensures LastValue(Fields(JavaSplit("ts=" + t + ",v1=" + h, ',')), "v1") == Some(h)
  {
    assert PlainField("ts", t) && PlainField("v1", h);
    assert "ts" + "=" + t + "," + "v1" + "=" + h == "ts=" + t + ",v1=" + h;
    HeaderLast("ts", t, "v1", h, "ts");
    HeaderLast("ts", t, "v1", h, "v1");
  }
}
