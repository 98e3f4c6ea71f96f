/** Storage keys (agent/src/store/tables.rs): big-endian byte strings whose byte order is time order. */
module Keys {

  newtype byte = x: int | 0 <= x < 256
  type i64 = x: int | -0x8000_0000_0000_0000 <= x < 0x8000_0000_0000_0000
  type u64 = x: int | 0 <= x < 0x1_0000_0000_0000_0000

  /** An `events` table key. */
  type Bytes16 = b: seq<byte> | |b| == 16 witness seq(16, _ => 0)
  datatype Key = Key(bytes: Bytes16)

  /** `to_be_bytes`, truncated to `width` bytes. */
  function ToBe(n: nat, width: nat): (bytes: seq<byte>)
    ensures |bytes| == width
  {
    if width == 0 then [] else ToBe(n / 256, width - 1) + [(n % 256) as byte]
  }

  /** `from_be_bytes` over any width. */
  function FromBe(bytes: seq<byte>): nat {
    if bytes == [] then 0
    else FromBe(bytes[..|bytes| - 1]) * 256 + bytes[|bytes| - 1] as nat
  }

  function Pow256(width: nat): (p: nat)
    ensures p > 0
  {
    if width == 0 then 1 else 256 * Pow256(width - 1)
  }

  /** The order redb scans keys in: the first differing byte decides. */
  predicate ByteLess(a: seq<byte>, b: seq<byte>)
    requires |a| == |b|
  {
    exists i :: 0 <= i < |a| && a[..i] == b[..i] && a[i] < b[i]
  }

  function Max0(x: int): nat { if x < 0 then 0 else x }

  function KeyOf(receivedMs: i64, seqNo: u64): Key {
    Key(ToBe(Max0(receivedMs), 8) + ToBe(seqNo, 8))
  }

  /** The received-time half of a key. */
  function KeyTime(key: Key): nat { FromBe(key.bytes[..8]) }

  lemma {:induction false} BeRoundTrip(n: nat, width: nat)
    requires n < Pow256(width)
    ensures FromBe(ToBe(n, width)) == n
  {
    if width > 0 {
      BeRoundTrip(n / 256, width - 1);
      assert ToBe(n, width)[..width - 1] == ToBe(n / 256, width - 1);
    }
  }

  lemma {:induction false} FromBeBound(a: seq<byte>)
    ensures FromBe(a) < Pow256(|a|)
  {
    if a != [] {
      FromBeBound(a[..|a| - 1]);
    }
  }

  /** Byte order is numeric order, and equal numbers of one width are equal bytes. */
  lemma {:induction false} ByteOrderIsNumeric(a: seq<byte>, b: seq<byte>)
    requires |a| == |b|
    ensures ByteLess(a, b) <==> FromBe(a) < FromBe(b)
    ensures a == b <==> FromBe(a) == FromBe(b)
  {
    if a != [] {
      var n := |a| - 1;
      var p, q := a[..n], b[..n];
      ByteOrderIsNumeric(p, q);
      if ByteLess(p, q) {
        var i :| 0 <= i < n && p[..i] == q[..i] && p[i] < q[i];
        assert a[..i] == p[..i] && b[..i] == q[..i];
        assert a[i] < b[i];
      }
      if ByteLess(a, b) {
        var i :| 0 <= i < |a| && a[..i] == b[..i] && a[i] < b[i];
        if i < n {
          assert p[..i] == a[..i] && q[..i] == b[..i] && p[i] < q[i];
        } else {
          assert p == q;
        }
      }
      if p == q && a[n] < b[n] {
        assert a[..n] == b[..n];
      }
      assert a == p + [a[n]] && b == q + [b[n]];
    }
  }

  lemma {:induction false} FromBeConcat(a: seq<byte>, b: seq<byte>)
    ensures FromBe(a + b) == FromBe(a) * Pow256(|b|) + FromBe(b)
  {
    if b == [] {
      assert a + b == a;
    } else {
      var front, last := b[..|b| - 1], b[|b| - 1];
      FromBeConcat(a, front);
      assert (a + b)[..|a + b| - 1] == a + front;
      calc {
        FromBe(a + b);
        (FromBe(a) * Pow256(|front|) + FromBe(front)) * 256 + last as nat;
        { Associate(FromBe(a), Pow256(|front|)); }
        FromBe(a) * Pow256(|b|) + FromBe(b);
      }
    }
  }

  lemma Associate(x: nat, y: nat)
    ensures (x * y) * 256 == x * (256 * y)
  {
  }

  lemma Width8(n: u64)
    ensures n < Pow256(8)
  {
  }

  /** Decoding the first eight bytes of a key gives back the clamped receive time. */
  lemma KeyTimeInverts(receivedMs: i64, seqNo: u64)
    ensures KeyTime(KeyOf(receivedMs, seqNo)) == Max0(receivedMs)
  {
    Width8(Max0(receivedMs));
    BeRoundTrip(Max0(receivedMs), 8);
    assert KeyOf(receivedMs, seqNo).bytes[..8] == ToBe(Max0(receivedMs), 8);
  }

  lemma KeyNumber(receivedMs: i64, seqNo: u64)
    ensures FromBe(KeyOf(receivedMs, seqNo).bytes) == Max0(receivedMs) * Pow256(8) + seqNo
  {
    Width8(Max0(receivedMs));
    Width8(seqNo);
    BeRoundTrip(Max0(receivedMs), 8);
    BeRoundTrip(seqNo, 8);
    FromBeConcat(ToBe(Max0(receivedMs), 8), ToBe(seqNo, 8));
  }

  lemma PairOrder(a: nat, b: nat, c: nat, d: nat, base: nat)
    requires b < base && d < base
    ensures a * base + b < c * base + d <==> a < c || (a == c && b < d)
    ensures a * base + b == c * base + d <==> a == c && b == d
  {
    if a < c {
      assert (a + 1) * base <= c * base;
    } else if c < a {
      assert (c + 1) * base <= a * base;
    }
  }

  /** A byte-ordered scan of the table is a scan in (receive time, sequence) order. */
  lemma KeyOrder(r1: i64, s1: u64, r2: i64, s2: u64)
    ensures ByteLess(KeyOf(r1, s1).bytes, KeyOf(r2, s2).bytes)
            <==> Max0(r1) < Max0(r2) || (Max0(r1) == Max0(r2) && s1 < s2)
  {
    KeyNumber(r1, s1);
    KeyNumber(r2, s2);
    Width8(s1);
    Width8(s2);
    ByteOrderIsNumeric(KeyOf(r1, s1).bytes, KeyOf(r2, s2).bytes);
    PairOrder(Max0(r1), s1, Max0(r2), s2, Pow256(8));
  }

  /** Two events share a key only when they share a sequence number. */
  lemma KeyInjective(r1: i64, s1: u64, r2: i64, s2: u64)
    ensures KeyOf(r1, s1) == KeyOf(r2, s2) <==> Max0(r1) == Max0(r2) && s1 == s2
  {
    KeyNumber(r1, s1);
    KeyNumber(r2, s2);
    Width8(s1);
    Width8(s2);
    ByteOrderIsNumeric(KeyOf(r1, s1).bytes, KeyOf(r2, s2).bytes);
    PairOrder(Max0(r1), s1, Max0(r2), s2, Pow256(8));
  }

  lemma {:induction false} LeadingZeros(n: nat, bytes: seq<byte>)
    ensures FromBe(seq(n, _ => 0 as byte) + bytes) == FromBe(bytes)
  {
    var zeros := seq(n, _ => 0 as byte);
    FromBeConcat(zeros, bytes);
    if n > 0 {
      LeadingZeros(n - 1, []);
      assert zeros[..n - 1] == seq(n - 1, _ => 0 as byte) == seq(n - 1, _ => 0 as byte) + [];
    }
  }

  /** Fill a 16-byte buffer half by half. */
  method EventKey(receivedMs: i64, seqNo: u64) returns (key: array<byte>)
    ensures fresh(key) && key.Length == 16 && key[..] == KeyOf(receivedMs, seqNo).bytes
  {
    key := new byte[16](_ => 0);
    var time, number := ToBe(Max0(receivedMs), 8), ToBe(seqNo, 8);
    forall i | 0 <= i < 8 { key[i] := time[i]; }
    forall i | 8 <= i < 16 { key[i] := number[i - 8]; }
  }

  function First(bytes: seq<byte>, n: nat): seq<byte> {
    bytes[..if |bytes| < n then |bytes| else n]
  }

  /** Decode up to eight leading bytes, right-aligned in a zeroed buffer. */
  method U64FromBe(bytes: seq<byte>) returns (value: nat)
    ensures value == FromBe(First(bytes, 8))
  {
    var buf := new byte[8](_ => 0);
    var n := |First(bytes, 8)|;
    forall i | 8 - n <= i < 8 { buf[i] := bytes[i - (8 - n)]; }
    assert buf[..] == seq(8 - n, _ => 0 as byte) + First(bytes, 8);
    LeadingZeros(8 - n, First(bytes, 8));
    value := FromBe(buf[..]);
  }

  /** The same for up to four leading bytes. */
  method U32FromBe(bytes: seq<byte>) returns (value: nat)
    ensures value == FromBe(First(bytes, 4))
  {
    var buf := new byte[4](_ => 0);
    var n := |First(bytes, 4)|;
    forall i | 4 - n <= i < 4 { buf[i] := bytes[i - (4 - n)]; }
    assert buf[..] == seq(4 - n, _ => 0 as byte) + First(bytes, 4);
    LeadingZeros(4 - n, First(bytes, 4));
    value := FromBe(buf[..]);
  }
}
