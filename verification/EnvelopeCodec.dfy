/** The one-column layout of an encrypted payload (`encryption/envelope.py`):
    dek_id length (1 byte), dek_id, iv (12 bytes), tag (16 bytes), ciphertext. */
module EnvelopeCodec {
  import opened Common

  type Byte = b: int | 0 <= b < 256
  type Bytes = seq<Byte>

  datatype EncryptedPayload = EncryptedPayload(ciphertext: Bytes, dekId: string, iv: Bytes, tag: Bytes)

  datatype Error = NotAscii | IdTooLong | Empty

  predicate IsAscii(s: string) {
    forall i :: 0 <= i < |s| ==> s[i] as int < 128
  }

  predicate IsAsciiBytes(b: Bytes) {
    forall i :: 0 <= i < |b| ==> b[i] < 128
  }

  function Encode(s: string): (b: Bytes)
    requires IsAscii(s)
    ensures |b| == |s| && IsAsciiBytes(b) && Decode(b) == s
  {
    seq(|s|, i requires 0 <= i < |s| => s[i] as int)
  }

  function Decode(b: Bytes): (s: string)
    requires IsAsciiBytes(b)
  {
    seq(|b|, i requires 0 <= i < |b| => b[i] as char)
  }

  function ToBytes(p: EncryptedPayload): Result<Bytes, Error> {
    if !IsAscii(p.dekId) then Err(NotAscii)
    else if 255 < |p.dekId| then Err(IdTooLong)
    else Ok([|p.dekId|] + Encode(p.dekId) + p.iv + p.tag + p.ciphertext)
  }

  // Python's d[lo:hi], which never fails but may come out short.
  function Slice(d: Bytes, lo: nat, hi: nat): Bytes
    requires lo <= hi
  {
    d[Min(lo, |d|)..Min(hi, |d|)]
  }

  function FromBytes(d: Bytes): Result<EncryptedPayload, Error> {
    if d == [] then Err(Empty)
    else
      var n: nat := d[0];
      var id := Slice(d, 1, 1 + n);
      if !IsAsciiBytes(id) then Err(NotAscii)
      else Ok(EncryptedPayload(Slice(d, 29 + n, Max(29 + n, |d|)), Decode(id), Slice(d, 1 + n, 13 + n), Slice(d, 13 + n, 29 + n)))
  }

  /** Read back unchanged: full-length iv and tag, or a payload cut off inside
      the iv or the tag with nothing after the cut. */
  predicate Reads(p: EncryptedPayload) {
    || (|p.iv| == 12 && |p.tag| == 16)
    || (|p.iv| == 12 && |p.tag| < 16 && p.ciphertext == [])
    || (|p.iv| < 12 && p.tag == [] && p.ciphertext == [])
  }

  // A sequence splits at a known place.
  lemma Split(a: Bytes, b: Bytes)
    ensures (a + b)[..|a|] == a && (a + b)[|a|..] == b
  {
  }

  // What FromBytes makes of the bytes after the id.
  lemma ReadsBody(p: EncryptedPayload)
    requires ToBytes(p).Ok?
    ensures var d := ToBytes(p).value;
            var body := p.iv + p.tag + p.ciphertext;
            FromBytes(d) == Ok(EncryptedPayload(Slice(body, 28, Max(28, |body|)), p.dekId, Slice(body, 0, 12), Slice(body, 12, 28)))
  {
    var d := ToBytes(p).value;
    var n := |p.dekId|;
    var body := p.iv + p.tag + p.ciphertext;
    var head := [n] + Encode(p.dekId);
    assert d == head + body;
    Split(head, body);
    assert Slice(d, 1, 1 + n) == Encode(p.dekId);
    assert Slice(d, 1 + n, 13 + n) == Slice(body, 0, 12);
    assert Slice(d, 13 + n, 29 + n) == Slice(body, 12, 28);
    assert Slice(d, 29 + n, Max(29 + n, |d|)) == Slice(body, 28, Max(28, |body|));
  }

  /** from_bytes(to_bytes(p)) == p exactly for the payloads that read back. */
  lemma RoundTripIff(p: EncryptedPayload)
    requires ToBytes(p).Ok?
    ensures FromBytes(ToBytes(p).value) == Ok(p) <==> Reads(p)
  {
    ReadsBody(p);
    var body := p.iv + p.tag + p.ciphertext;
    if Reads(p) {
      Split(p.iv, p.tag + p.ciphertext);
      Split(p.tag, p.ciphertext);
      assert body == p.iv + (p.tag + p.ciphertext);
      assert Slice(body, 0, 12) == p.iv && Slice(body, 12, 28) == p.tag;
      assert Slice(body, 28, Max(28, |body|)) == p.ciphertext;
    }
  }

  /** Serialization is one-to-one on payloads with a full iv and tag. */
  lemma ToBytesInjective(p: EncryptedPayload, q: EncryptedPayload)
    requires ToBytes(p).Ok? && ToBytes(q).Ok? && |p.iv| == |q.iv| == 12 && |p.tag| == |q.tag| == 16
    requires ToBytes(p) == ToBytes(q)
    ensures p == q
  {
    RoundTripIff(p);
    RoundTripIff(q);
  }

  // The three slices after the id lose nothing and overlap nowhere.
  lemma SlicesJoin(d: Bytes, k: nat)
    requires k <= |d|
    ensures Slice(d, k, k + 12) + Slice(d, k + 12, k + 28) + Slice(d, k + 28, Max(k + 28, |d|)) == d[k..]
  {
  }

  /** to_bytes(from_bytes(d)) == d exactly when the blob is at least as long as
      its id length promises; no other part of it needs to be complete. */
  lemma ReverseIff(d: Bytes)
    requires FromBytes(d).Ok?
    ensures ToBytes(FromBytes(d).value) == Ok(d) <==> 1 + d[0] <= |d|
  {
    var n: nat := d[0];
    var p := FromBytes(d).value;
    var id := Slice(d, 1, 1 + n);
    assert Encode(p.dekId) == id;
    if 1 + n <= |d| {
      SlicesJoin(d, 1 + n);
      assert d == [n] + id + d[1 + n..];
      JoinTail([n] + id, p.iv, p.tag, p.ciphertext);
    }
  }

  /** Two bytes that promise an id of five are accepted, and not written back as they were. */
  lemma ShortBlobIsAccepted()
    ensures FromBytes([5, 65]).Ok? && ToBytes(FromBytes([5, 65]).value) != Ok([5, 65])
  {
    assert Slice([5, 65], 1, 6) == [65];
    ReverseIff([5, 65]);
  }

  lemma JoinTail(a: Bytes, b: Bytes, c: Bytes, d: Bytes)
    ensures a + (b + c + d) == a + b + c + d
  {
  }
}
