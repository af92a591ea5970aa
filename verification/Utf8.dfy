/**
  The UTF-8 encoding of Unicode scalar values (sections 3 and 4 of RFC 3629), and the two places that cut a
  message at a character boundary.
*/
module Utf8 {
  import opened Prelude

  type Byte = b: int | 0 <= b < 256

  function EncodeChar(c: char): (bytes: seq<Byte>)
    ensures 1 <= |bytes| <= 4
    ensures !IsContinuation(bytes[0])
    ensures forall i :: 1 <= i < |bytes| ==> IsContinuation(bytes[i])
  {
    var v := c as int;
    if v < 0x80 then [v]
    else if v < 0x800 then [0xC0 + v / 64, 0x80 + v % 64]
    else if v < 0x1_0000 then [0xE0 + v / 4096, 0x80 + v / 64 % 64, 0x80 + v % 64]
    else [0xF0 + v / 262144, 0x80 + v / 4096 % 64, 0x80 + v / 64 % 64, 0x80 + v % 64]
  }

  predicate IsContinuation(b: Byte) {
    0x80 <= b < 0xC0
  }

  function Encode(s: string): (bytes: seq<Byte>)
    ensures |s| <= |bytes|
  {
    if s == [] then [] else EncodeChar(s[0]) + Encode(s[1..])
  }

  /** `str::len`: the length in bytes. */
  function ByteLen(s: string): nat {
    |Encode(s)|
  }

  lemma EncodeParts(s: string)
    ensures s == [] ==> Encode(s) == []
    ensures s != [] ==> Encode(s) == EncodeChar(s[0]) + Encode(s[1..])
  {
  }

  lemma {:induction false} EncodeConcat(a: string, b: string)
    ensures Encode(a + b) == Encode(a) + Encode(b)
  {
    hide Encode, EncodeChar;
    EncodeParts(a);
    if a == [] {
      assert a + b == b && Encode(a) + Encode(b) == Encode(b);
    } else {
      EncodeParts(a + b);
      assert (a + b)[0] == a[0] && (a + b)[1..] == a[1..] + b;
      EncodeConcat(a[1..], b);
      Associative(EncodeChar(a[0]), Encode(a[1..]), Encode(b));
    }
  }

  /** The scalar value an encoded character stands for. */
  function CharValue(bytes: seq<int>): int
    requires 1 <= |bytes| <= 4
  {
    if |bytes| == 1 then bytes[0]
    else if |bytes| == 2 then (bytes[0] - 0xC0) * 64 + (bytes[1] - 0x80)
    else if |bytes| == 3 then (bytes[0] - 0xE0) * 4096 + (bytes[1] - 0x80) * 64 + (bytes[2] - 0x80)
    else (bytes[0] - 0xF0) * 262144 + (bytes[1] - 0x80) * 4096 + (bytes[2] - 0x80) * 64 + (bytes[3] - 0x80)
  }

  lemma CharValueOfEncodeChar(c: char)
    ensures CharValue(EncodeChar(c)) == c as int
  {
    var v := c as int;
    if 0x800 <= v < 0x1_0000 {
      assert v / 4096 == v / 64 / 64;
    } else if 0x1_0000 <= v {
      assert v / 4096 == v / 64 / 64 && v / 262144 == v / 64 / 64 / 64;
    }
  }

  /** No encoded character is a proper prefix of another: the first byte fixes the length. */
  lemma EncodeCharPrefixFree(a: char, b: char, restA: seq<Byte>, restB: seq<Byte>)
    requires EncodeChar(a) + restA == EncodeChar(b) + restB
    ensures a == b && restA == restB
  {
    var x, y := EncodeChar(a), EncodeChar(b);
    var whole := x + restA;
    assert |x| == |y| by {
      assert whole[0] == x[0] == y[0];
      LengthFromFirstByte(a);
      LengthFromFirstByte(b);
    }
    assert x == whole[..|x|] == y;
    assert restA == whole[|x|..] == restB;
    CharValueOfEncodeChar(a);
    CharValueOfEncodeChar(b);
  }

  lemma LengthFromFirstByte(c: char)
    ensures var first := EncodeChar(c)[0];
            |EncodeChar(c)| == if first < 0x80 then 1 else if first < 0xE0 then 2 else if first < 0xF0 then 3 else 4
  {
  }

  lemma {:induction false} EncodeInjective(a: string, b: string)
    requires Encode(a) == Encode(b)
    ensures a == b
  {
    if a != [] && b != [] {
      EncodeCharPrefixFree(a[0], b[0], Encode(a[1..]), Encode(b[1..]));
      EncodeInjective(a[1..], b[1..]);
    }
  }

  // ---- Character boundaries

  /** `str::is_char_boundary`, on the bytes of a string. */
  predicate IsCharBoundary(bytes: seq<Byte>, i: nat) {
    i == 0 || i == |bytes| || (i < |bytes| && !IsContinuation(bytes[i]))
  }

  /** The byte test finds exactly the ends of the character prefixes. */
  lemma {:induction false} BoundaryIsPrefixEnd(s: string, i: nat)
    ensures IsCharBoundary(Encode(s), i) <==> exists n :: 0 <= n <= |s| && ByteLen(s[..n]) == i
  {
    hide Encode;
    EncodeParts("");
    EncodeParts(s);
    if i == 0 {
      assert ByteLen(s[..0]) == 0;
    } else if s == [] {
      assert IsCharBoundary(Encode(s), i) <==> false;
    } else {
      var head := EncodeChar(s[0]);
      var tail := Encode(s[1..]);
      assert Encode(s) == head + tail;
      forall n | 1 <= n <= |s|
        ensures ByteLen(s[..n]) == |head| + ByteLen(s[1..][..n - 1])
      {
        EncodeParts(s[..n]);
        assert s[..n][1..] == s[1..][..n - 1];
      }
      if i < |head| {
        assert IsContinuation(Encode(s)[i]);
      } else {
        BoundaryIsPrefixEnd(s[1..], i - |head|);
        assert i < |head| + |tail| ==> Encode(s)[i] == tail[i - |head|];
        assert IsCharBoundary(Encode(s), i) <==> IsCharBoundary(tail, i - |head|) by {
          if i == |head| && tail != [] {
            EncodeParts(s[1..]);
            assert tail[0] == EncodeChar(s[1])[0];
          }
        }
        if IsCharBoundary(Encode(s), i) {
          var m :| 0 <= m <= |s[1..]| && ByteLen(s[1..][..m]) == i - |head|;
          assert ByteLen(s[..m + 1]) == i;
        }
        if n :| 0 <= n <= |s| && ByteLen(s[..n]) == i {
          assert n >= 1;
          assert ByteLen(s[1..][..n - 1]) == i - |head|;
        }
      }
    }
  }

  /** Four consecutive positions of a string always hold a boundary. */
  lemma {:induction false} BoundaryWithinThree(s: string, limit: nat) returns (end: nat)
    requires limit <= ByteLen(s)
    ensures limit - 3 <= end <= limit && IsCharBoundary(Encode(s), end)
  {
    if limit == 0 || limit < |EncodeChar(s[0])| {
      return 0;
    }
    var head := |EncodeChar(s[0])|;
    var rest := BoundaryWithinThree(s[1..], limit - head);
    end := head + rest;
    BoundaryIsPrefixEnd(s[1..], rest);
    var m :| 0 <= m <= |s[1..]| && ByteLen(s[1..][..m]) == rest;
    assert s[..m + 1][1..] == s[1..][..m];
    assert ByteLen(s[..m + 1]) == end;
    BoundaryIsPrefixEnd(s, end);
  }

  // ---- Truncation

  /** The most characters of `s` whose encoding fits in `budget` bytes. */
  function FittingChars(s: string, budget: nat): (n: nat)
    ensures n <= |s|
  {
    if s == [] || |EncodeChar(s[0])| > budget then 0
    else 1 + FittingChars(s[1..], budget - |EncodeChar(s[0])|)
  }

  /** `FittingChars` is the longest fitting prefix: a prefix fits exactly when it is no longer. */
  lemma {:induction false} FittingCharsIsLongest(s: string, budget: nat, n: nat)
    requires n <= |s|
    ensures ByteLen(s[..n]) <= budget <==> n <= FittingChars(s, budget)
  {
    if n == 0 {
      assert s[..0] == [];
    } else {
      assert s[..n][1..] == s[1..][..n - 1];
      assert ByteLen(s[..n]) == |EncodeChar(s[0])| + ByteLen(s[1..][..n - 1]);
      if |EncodeChar(s[0])| <= budget {
        FittingCharsIsLongest(s[1..], budget - |EncodeChar(s[0])|, n - 1);
      }
    }
  }

  /** What a message bounded to `limit` bytes becomes: itself, or its longest prefix that leaves room for `mark`. */
  function Bounded(message: string, mark: string, limit: nat): string
    requires ByteLen(mark) <= limit
  {
    if ByteLen(message) <= limit then message
    else message[..FittingChars(message, limit - ByteLen(mark))] + mark
  }

  lemma BoundedFits(message: string, mark: string, limit: nat)
    requires ByteLen(mark) <= limit
    ensures ByteLen(Bounded(message, mark, limit)) <= limit
    ensures ByteLen(message) <= limit ==> Bounded(message, mark, limit) == message
    ensures ByteLen(message) > limit ==>
              var kept := Bounded(message, mark, limit);
              && |mark| <= |kept| && kept[|kept| - |mark|..] == mark && kept[..|kept| - |mark|] <= message
    ensures ByteLen(message) > limit ==>
              forall n :: FittingChars(message, limit - ByteLen(mark)) < n <= |message| ==>
                ByteLen(message[..n] + mark) > limit
  {
    if ByteLen(message) > limit {
      var budget := limit - ByteLen(mark);
      var n := FittingChars(message, budget);
      FittingCharsIsLongest(message, budget, n);
      EncodeConcat(message[..n], mark);
      forall m | n < m <= |message|
        ensures ByteLen(message[..m] + mark) > limit
      {
        FittingCharsIsLongest(message, budget, m);
        EncodeConcat(message[..m], mark);
      }
    }
  }

  lemma PrefixBytes(s: string, n: nat)
    requires n <= |s|
    ensures ByteLen(s[..n]) <= ByteLen(s)
    ensures Encode(s)[..ByteLen(s[..n])] == Encode(s[..n])
  {
    hide Encode;
    EncodeConcat(s[..n], s[n..]);
    assert s[..n] + s[n..] == s;
  }

  /** Longer prefixes of a string take more bytes. */
  lemma PrefixBytesMonotone(s: string, m: nat, n: nat)
    requires m < n <= |s|
    ensures ByteLen(s[..m]) < ByteLen(s[..n])
  {
    assert |s[m..n]| <= |Encode(s[m..n])|;
    hide Encode;
    EncodeConcat(s[..m], s[m..n]);
    assert s[..m] + s[m..n] == s[..n];
  }

  /** The boundary search both truncations run: walk back from `limit` to the start of a character. */
  method LastBoundary(message: string, limit: nat) returns (end: nat)
    requires limit <= ByteLen(message)
    ensures limit - 3 <= end <= limit
    ensures end == ByteLen(message[..FittingChars(message, limit)])
  {
    var bytes := Encode(message);
    end := limit;
    ghost var near := BoundaryWithinThree(message, limit);
    while !IsCharBoundary(bytes, end)
      invariant near <= end <= limit
      invariant forall i :: end < i <= limit ==> !IsCharBoundary(bytes, i)
      decreases end
    {
      end := end - 1;
    }
    BoundaryIsPrefixEnd(message, end);
    var n :| 0 <= n <= |message| && ByteLen(message[..n]) == end;
    FittingCharsIsLongest(message, limit, n);
    var fitting := FittingChars(message, limit);
    if n < fitting {
      PrefixBytesMonotone(message, n, fitting);
      FittingCharsIsLongest(message, limit, fitting);
      BoundaryIsPrefixEnd(message, ByteLen(message[..fitting]));
      assert false;
    }
  }

  const RECENT_EVENT_MESSAGE_LIMIT_BYTES: nat := 1024
  const MAX_EVENT_SUMMARY_BYTES: nat := 1024
  const ASCII_ELLIPSIS := "..."
  const ELLIPSIS := "\U{2026}"

  lemma EllipsisSizes()
    ensures ByteLen(ASCII_ELLIPSIS) == 3 && ByteLen(ELLIPSIS) == 3
  {
    assert ASCII_ELLIPSIS == ['.'] + (['.'] + ['.']);
    EncodeConcat(['.'], ['.']);
    EncodeConcat(['.'], ['.'] + ['.']);
    assert Encode(['.']) == EncodeChar('.');
    assert ELLIPSIS[1..] == [];
    assert Encode(ELLIPSIS) == EncodeChar(ELLIPSIS[0]);
  }

  /** The text kept for the event history of an issue. */
  function BoundedMessage(message: string): string {
    EllipsisSizes();
    Bounded(message, ASCII_ELLIPSIS, RECENT_EVENT_MESSAGE_LIMIT_BYTES)
  }

  method BoundedRecentEventMessage(message: string) returns (bytes: seq<Byte>)
    ensures bytes == Encode(BoundedMessage(message))
    ensures |bytes| <= RECENT_EVENT_MESSAGE_LIMIT_BYTES
  {
    EllipsisSizes();
    BoundedFits(message, ASCII_ELLIPSIS, RECENT_EVENT_MESSAGE_LIMIT_BYTES);
    if ByteLen(message) <= RECENT_EVENT_MESSAGE_LIMIT_BYTES {
      return Encode(message);
    }
    var end := LastBoundary(message, RECENT_EVENT_MESSAGE_LIMIT_BYTES - ByteLen(ASCII_ELLIPSIS));
    var n := FittingChars(message, RECENT_EVENT_MESSAGE_LIMIT_BYTES - ByteLen(ASCII_ELLIPSIS));
    PrefixBytes(message, n);
    EncodeConcat(message[..n], ASCII_ELLIPSIS);
    bytes := Encode(message)[..end] + Encode(ASCII_ELLIPSIS);
  }

  method TruncateEventSummary(summary: string) returns (bytes: seq<Byte>)
    ensures ByteLen(ELLIPSIS) <= MAX_EVENT_SUMMARY_BYTES
    ensures bytes == Encode(Bounded(summary, ELLIPSIS, MAX_EVENT_SUMMARY_BYTES))
    ensures |bytes| <= MAX_EVENT_SUMMARY_BYTES
  {
    EllipsisSizes();
    BoundedFits(summary, ELLIPSIS, MAX_EVENT_SUMMARY_BYTES);
    if ByteLen(summary) <= MAX_EVENT_SUMMARY_BYTES {
      return Encode(summary);
    }
    var contentLimit := MAX_EVENT_SUMMARY_BYTES - ByteLen(ELLIPSIS);
    var end := LastBoundary(summary, contentLimit);
    PrefixBytes(summary, FittingChars(summary, contentLimit));
    EncodeConcat(summary[..FittingChars(summary, contentLimit)], ELLIPSIS);
    bytes := Encode(summary)[..end] + Encode(ELLIPSIS);
  }

  // ---- Byte order

  /** `slice::cmp`: the lexicographic order of bytes, -1, 0 or 1. */
  function CompareBytes(a: seq<Byte>, b: seq<Byte>): int {
    if a == [] then (if b == [] then 0 else -1)
    else if b == [] then 1
    else if a[0] < b[0] then -1
    else if a[0] > b[0] then 1
    else CompareBytes(a[1..], b[1..])
  }

  /** The bytes agree up to some place, and there the first ones end, alone, or have the smaller byte. */
  predicate FirstSmaller(a: seq<Byte>, b: seq<Byte>) {
    exists k :: 0 <= k <= |a| && k < |b| && a[..k] == b[..k] && (k < |a| ==> a[k] < b[k])
  }

  lemma FirstSmallerNext(a: seq<Byte>, b: seq<Byte>)
    requires a != [] && b != [] && a[0] == b[0]
    ensures FirstSmaller(a, b) <==> FirstSmaller(a[1..], b[1..])
  {
    if FirstSmaller(a, b) {
      var k :| 0 <= k <= |a| && k < |b| && a[..k] == b[..k] && (k < |a| ==> a[k] < b[k]);
      assert a[1..][..k - 1] == a[..k][1..] && b[1..][..k - 1] == b[..k][1..];
    }
    if FirstSmaller(a[1..], b[1..]) {
      var k :| 0 <= k < |a| && k < |b[1..]| && a[1..][..k] == b[1..][..k] && (k < |a[1..]| ==> a[1..][k] < b[1..][k]);
      assert a[..k + 1] == [a[0]] + a[1..][..k] && b[..k + 1] == [b[0]] + b[1..][..k];
    }
  }

  /** The comparison is the lexicographic order of bytes. */
  lemma {:induction false} CompareBytesMeaning(a: seq<Byte>, b: seq<Byte>)
    ensures CompareBytes(a, b) == -1 <==> FirstSmaller(a, b)
    ensures CompareBytes(a, b) == 1 <==> FirstSmaller(b, a)
    ensures CompareBytes(a, b) == 0 <==> a == b
  {
    if a == [] || b == [] {
      assert a == [] && b != [] ==> a[..0] == b[..0];
      assert b == [] && a != [] ==> b[..0] == a[..0];
    } else if a[0] != b[0] {
      assert a[..0] == b[..0];
      DifferAtOnce(a, b);
      DifferAtOnce(b, a);
    } else {
      CompareBytesMeaning(a[1..], b[1..]);
      FirstSmallerNext(a, b);
      FirstSmallerNext(b, a);
      assert a == [a[0]] + a[1..] && b == [b[0]] + b[1..];
    }
  }

  lemma DifferAtOnce(a: seq<Byte>, b: seq<Byte>)
    requires a != [] && b != [] && a[0] != b[0]
    ensures FirstSmaller(a, b) <==> a[0] < b[0]
  {
    forall k | 0 < k <= |a| && k <= |b|
      ensures a[..k] != b[..k]
    {
      assert a[..k][0] == a[0] && b[..k][0] == b[0];
    }
    assert a[..0] == b[..0];
  }

  lemma {:induction false} CommonPrefix(p: seq<Byte>, a: seq<Byte>, b: seq<Byte>)
    ensures CompareBytes(p + a, p + b) == CompareBytes(a, b)
  {
    if p == [] {
      assert p + a == a && p + b == b;
    } else {
      assert (p + a)[1..] == p[1..] + a && (p + b)[1..] == p[1..] + b;
      CommonPrefix(p[1..], a, b);
    }
  }

  /** First bytes are ordered as the characters are, and equal first bytes mean equal lengths. */
  lemma LeadOrders(c: char, d: char)
    requires c < d
    ensures var x, y := EncodeChar(c), EncodeChar(d); x[0] <= y[0] && (x[0] == y[0] ==> |x| == |y| > 1)
  {
    LengthFromFirstByte(c);
    LengthFromFirstByte(d);
  }

  /** The encodings of two characters first differ in a byte that orders them as the characters are ordered. */
  lemma FirstDifference(c: char, d: char) returns (k: nat)
    requires c < d
    ensures k < |EncodeChar(c)| && k < |EncodeChar(d)|
    ensures EncodeChar(c)[..k] == EncodeChar(d)[..k] && EncodeChar(c)[k] < EncodeChar(d)[k]
  {
    var x, y := EncodeChar(c), EncodeChar(d);
    CharValueOfEncodeChar(c);
    CharValueOfEncodeChar(d);
    LeadOrders(c, d);
    hide EncodeChar;
    k := if x[0] != y[0] then 0 else if x[1] != y[1] then 1 else if x[2] != y[2] then 2 else 3;
  }

  /** A smaller character makes a smaller text, whatever follows. */
  lemma SmallerChar(c: char, d: char, restC: seq<Byte>, restD: seq<Byte>)
    requires c < d
    ensures CompareBytes(EncodeChar(c) + restC, EncodeChar(d) + restD) == -1
    ensures CompareBytes(EncodeChar(d) + restD, EncodeChar(c) + restC) == 1
  {
    var k := FirstDifference(c, d);
    var x, y := EncodeChar(c) + restC, EncodeChar(d) + restD;
    var p := EncodeChar(c)[..k];
    assert x == p + x[k..] && y == p + y[k..];
    CommonPrefix(p, x[k..], y[k..]);
    CommonPrefix(p, y[k..], x[k..]);
  }
}
