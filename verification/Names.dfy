/**
  The names the orchestrator derives from a source id and an issue: the issue key that indexes its tables and
  the workspace key that names a directory. Both must keep different issues apart.
*/
module Names {
  import opened Prelude
  import opened Utf8

  const DEFAULT_SOURCE_ID := "default"

  // ---- Text helpers

  function AsciiLowerChar(c: char): char {
    if 'A' <= c <= 'Z' then (c as int + 32) as char else c
  }

  /** `str::to_ascii_lowercase`; two strings are equal ignoring ASCII case when their lower-case forms agree. */
  function AsciiLower(s: string): string {
    seq(|s|, i requires 0 <= i < |s| => AsciiLowerChar(s[i]))
  }

  /** The two characters are one letter, first as a capital and then as a small one. */
  predicate CapitalAndSmall(c: char, d: char) {
    'A' <= c <= 'Z' && 'a' <= d <= 'z' && c as int - 'A' as int == d as int - 'a' as int
  }

  /** The texts differ at most in the case of letters from A to Z. */
  predicate SameLetters(a: string, b: string) {
    && |a| == |b|
    && forall i :: 0 <= i < |a| ==>
         a[i] == b[i] || CapitalAndSmall(a[i], b[i]) || CapitalAndSmall(b[i], a[i])
  }

  /** Lower-case forms agree exactly for texts of the same letters, and have no capitals. */
  lemma LowerCaseMeaning(a: string, b: string)
    ensures AsciiLower(a) == AsciiLower(b) <==> SameLetters(a, b)
    ensures SameLetters(a, AsciiLower(a)) && forall i :: 0 <= i < |AsciiLower(a)| ==> !('A' <= AsciiLower(a)[i] <= 'Z')
  {
    if AsciiLower(a) == AsciiLower(b) {
      assert |a| == |AsciiLower(a)| == |b|;
      forall i | 0 <= i < |a|
        ensures a[i] == b[i] || CapitalAndSmall(a[i], b[i]) || CapitalAndSmall(b[i], a[i])
      {
        assert AsciiLower(a)[i] == AsciiLower(b)[i];
      }
    }
  }

  function Digit(d: nat): char
    requires d < 10
  {
    "0123456789"[d]
  }

  /** The decimal text of a number. */
  function Decimal(n: nat): (text: string)
    ensures text != []
    ensures ':' !in text
  {
    if n < 10 then [Digit(n)] else Decimal(n / 10) + [Digit(n % 10)]
  }

  lemma {:induction false} DecimalInjective(m: nat, n: nat)
    requires Decimal(m) == Decimal(n)
    ensures m == n
  {
    assert Decimal(m)[|Decimal(m)| - 1] == Digit(m % 10);
    assert Decimal(n)[|Decimal(n)| - 1] == Digit(n % 10);
    if m >= 10 && n >= 10 {
      assert Decimal(m / 10) == Decimal(m)[..|Decimal(m)| - 1];
      assert Decimal(n / 10) == Decimal(n)[..|Decimal(n)| - 1];
      DecimalInjective(m / 10, n / 10);
    }
  }

  /** What stands before the first separator is determined by the whole text. */
  lemma FirstSeparator(separator: char, a: string, restA: string, b: string, restB: string)
    requires separator !in a && separator !in b
    requires a + [separator] + restA == b + [separator] + restB
    ensures a == b && restA == restB
  {
    var x, y := a + [separator] + restA, b + [separator] + restB;
    assert x[|a|] == separator && y[|b|] == separator;
    assert forall i :: 0 <= i < |a| ==> x[i] == a[i] && x[i] != separator;
    assert forall i :: 0 <= i < |b| ==> y[i] == b[i] && y[i] != separator;
    assert |a| == |b|;
    assert a == x[..|a|] == b;
    assert restA == x[|a| + 1..] == restB;
  }

  // ---- Issue keys

  /** Key of an issue in every table of the orchestrator. */
  function SourceIssueKey(sourceId: string, issueId: string): string {
    if sourceId == DEFAULT_SOURCE_ID then issueId
    else Decimal(ByteLen(sourceId)) + ":" + sourceId + issueId
  }

  /** A source id of known byte length can be read back from the front of a text. */
  lemma FixedLengthPrefix(a: string, restA: string, b: string, restB: string)
    requires a + restA == b + restB
    requires ByteLen(a) == ByteLen(b)
    ensures a == b && restA == restB
  {
    var whole := a + restA;
    assert a == whole[..|a|] && b == whole[..|b|];
    assert |a| == |b| by {
      PrefixLengths(whole, |a|, |b|);
      PrefixLengths(whole, |b|, |a|);
    }
    assert restA == whole[|a|..] == restB;
  }

  lemma PrefixLengths(whole: string, m: nat, n: nat)
    requires m <= |whole| && n <= |whole|
    ensures m < n ==> ByteLen(whole[..m]) < ByteLen(whole[..n])
  {
    if m < n {
      PrefixBytesMonotone(whole, m, n);
    }
  }

  lemma PrefixedKeyInjective(s1: string, i1: string, s2: string, i2: string)
    requires s1 != DEFAULT_SOURCE_ID && s2 != DEFAULT_SOURCE_ID
    requires SourceIssueKey(s1, i1) == SourceIssueKey(s2, i2)
    ensures s1 == s2 && i1 == i2
  {
    var d1, d2 := Decimal(ByteLen(s1)), Decimal(ByteLen(s2));
    assert d1 + ":" + s1 + i1 == d1 + ":" + (s1 + i1);
    assert d2 + ":" + s2 + i2 == d2 + ":" + (s2 + i2);
    FirstSeparator(':', d1, s1 + i1, d2, s2 + i2);
    DecimalInjective(ByteLen(s1), ByteLen(s2));
    FixedLengthPrefix(s1, i1, s2, i2);
  }

  /**
    Two (source, id) pairs share a key only when they are equal or when one is the default source carrying an
    id that spells out the other's whole key, colon included.
  */
  lemma KeyCollision(s1: string, i1: string, s2: string, i2: string)
    ensures SourceIssueKey(s1, i1) == SourceIssueKey(s2, i2) <==>
            || (s1 == s2 && i1 == i2)
            || (s1 == DEFAULT_SOURCE_ID != s2 && i1 == SourceIssueKey(s2, i2) && ':' in i1)
            || (s2 == DEFAULT_SOURCE_ID != s1 && i2 == SourceIssueKey(s1, i1) && ':' in i2)
  {
    if s1 != DEFAULT_SOURCE_ID {
      assert SourceIssueKey(s1, i1)[|Decimal(ByteLen(s1))|] == ':';
    }
    if s2 != DEFAULT_SOURCE_ID {
      assert SourceIssueKey(s2, i2)[|Decimal(ByteLen(s2))|] == ':';
    }
    if s1 != DEFAULT_SOURCE_ID && s2 != DEFAULT_SOURCE_ID && SourceIssueKey(s1, i1) == SourceIssueKey(s2, i2) {
      PrefixedKeyInjective(s1, i1, s2, i2);
    }
  }

  /** On tracker ids without a colon the key is injective. */
  lemma SourceIssueKeyInjective(s1: string, i1: string, s2: string, i2: string)
    requires ':' !in i1 && ':' !in i2
    requires SourceIssueKey(s1, i1) == SourceIssueKey(s2, i2)
    ensures s1 == s2 && i1 == i2
  {
    KeyCollision(s1, i1, s2, i2);
  }

  // ---- Workspace keys

  predicate IsWorkspaceChar(c: char) {
    'a' <= c <= 'z' || 'A' <= c <= 'Z' || '0' <= c <= '9' || c == '.' || c == '_' || c == '-'
  }

  function SanitizeChar(c: char): char {
    if IsWorkspaceChar(c) then c else '_'
  }

  /** One safe directory segment for an issue identifier. */
  function SanitizeWorkspaceKey(identifier: string): (key: string)
    ensures IsSafeSegment(key)
    ensures forall i :: 0 <= i < |key| ==> IsWorkspaceChar(key[i])
  {
    var key := seq(|identifier|, i requires 0 <= i < |identifier| => SanitizeChar(identifier[i]));
    if key == "" || key == "." || key == ".." then "_" else key
  }

  /**
    Character by character: what may stand in a name stays and anything else becomes an underscore. Only the empty
    text and the two dot segments are replaced as a whole.
  */
  lemma SanitizeMeaning(identifier: string)
    ensures var key := SanitizeWorkspaceKey(identifier);
            if identifier in ["", ".", ".."] then key == "_"
            else |key| == |identifier|
                 && forall i :: 0 <= i < |key| ==> key[i] == if IsWorkspaceChar(identifier[i]) then identifier[i]
                   else '_'
  {
    var mapped := seq(|identifier|, i requires 0 <= i < |identifier| => SanitizeChar(identifier[i]));
    assert forall i :: 0 <= i < |identifier| && (mapped[i] == '.' || identifier[i] == '.') ==>
             mapped[i] == identifier[i];
    assert mapped in ["", ".", ".."] || identifier in ["", ".", ".."] ==> mapped == identifier;
  }

  /** A text that is one ordinary path component: not empty, not a dot segment, no separator. */
  predicate IsSafeSegment(segment: string) {
    segment != "" && segment != "." && segment != ".." && '/' !in segment
  }

  /** Sanitising is idempotent, so a key is its own segment. */
  lemma SanitizeIdempotent(identifier: string)
    ensures SanitizeWorkspaceKey(SanitizeWorkspaceKey(identifier)) == SanitizeWorkspaceKey(identifier)
  {
    var key := SanitizeWorkspaceKey(identifier);
    assert seq(|key|, i requires 0 <= i < |key| => SanitizeChar(key[i])) == key;
  }

  function HexDigit(d: nat): (c: char)
    requires d < 16
    ensures '0' <= c <= '9' || 'a' <= c <= 'f'
  {
    "0123456789abcdef"[d]
  }

  function Hex(bytes: seq<Byte>): (text: string)
    ensures |text| == 2 * |bytes|
    ensures forall i :: 0 <= i < |text| ==> '0' <= text[i] <= '9' || 'a' <= text[i] <= 'f'
  {
    if bytes == [] then "" else [HexDigit(bytes[0] / 16), HexDigit(bytes[0] % 16)] + Hex(bytes[1..])
  }

  lemma {:induction false} HexInjective(a: seq<Byte>, b: seq<Byte>)
    requires Hex(a) == Hex(b)
    ensures a == b
  {
    assert |a| == |b|;
    if a != [] {
      assert Hex(a)[0] == HexDigit(a[0] / 16) && Hex(b)[0] == HexDigit(b[0] / 16);
      assert Hex(a)[1] == HexDigit(a[0] % 16) && Hex(b)[1] == HexDigit(b[0] % 16);
      assert Hex(a[1..]) == Hex(a)[2..] == Hex(b)[2..] == Hex(b[1..]);
      HexInjective(a[1..], b[1..]);
      assert a[0] == b[0] by { HexDigitInjective(a[0] / 16, b[0] / 16); HexDigitInjective(a[0] % 16, b[0] % 16); }
      assert a == [a[0]] + a[1..] && b == [b[0]] + b[1..];
    }
  }

  lemma HexDigitInjective(m: nat, n: nat)
    requires m < 16 && n < 16 && HexDigit(m) == HexDigit(n)
    ensures m == n
  {
  }

  lemma HexParts(bytes: seq<Byte>)
    ensures bytes == [] ==> Hex(bytes) == []
    ensures bytes != [] ==> Hex(bytes) == [HexDigit(bytes[0] / 16), HexDigit(bytes[0] % 16)] + Hex(bytes[1..])
  {
  }

  lemma {:induction false} HexConcat(a: seq<Byte>, b: seq<Byte>)
    ensures Hex(a + b) == Hex(a) + Hex(b)
  {
    hide Hex, HexDigit;
    HexParts(a);
    if a == [] {
      assert a + b == b && Hex(a) + Hex(b) == Hex(b);
    } else {
      HexParts(a + b);
      assert (a + b)[0] == a[0] && (a + b)[1..] == a[1..] + b;
      HexConcat(a[1..], b);
      Associative([HexDigit(a[0] / 16), HexDigit(a[0] % 16)], Hex(a[1..]), Hex(b));
    }
  }

  /** Two more digits behind any text spell one more byte. */
  lemma HexNextByte(text: string, bytes: seq<Byte>, i: nat)
    requires i < |bytes|
    ensures text + Hex(bytes[..i + 1]) == text + Hex(bytes[..i]) + [HexDigit(bytes[i] / 16)] + [HexDigit(bytes[i] % 16)]
  {
    assert bytes[..i] + [bytes[i]] == bytes[..i + 1];
    HexConcat(bytes[..i], [bytes[i]]);
    assert Hex([bytes[i]]) == [HexDigit(bytes[i] / 16), HexDigit(bytes[i] % 16)] + Hex([]);
  }

  const NAMESPACE_PREFIX := "source-"

  /** The directory that holds the workspaces of a source other than the default one. */
  function Namespace(sourceId: string): (segment: string)
    ensures IsSafeSegment(segment)
    ensures forall i :: 0 <= i < |segment| ==> segment[i] == '-' || 'a' <= segment[i] <= 'z' || '0' <= segment[i] <= '9'
  {
    NAMESPACE_PREFIX + Hex(Encode(sourceId))
  }

  method SourceWorkspaceNamespace(sourceId: string) returns (segment: string)
    ensures segment == Namespace(sourceId)
  {
    hide Hex, Encode, HexDigit;
    var bytes := Encode(sourceId);
    segment := NAMESPACE_PREFIX;
    assert Hex(bytes[..0]) == [];
    for i := 0 to |bytes|
      invariant segment == NAMESPACE_PREFIX + Hex(bytes[..i])
    {
      HexNextByte(NAMESPACE_PREFIX, bytes, i);
      segment := segment + [HexDigit(bytes[i] / 16)];
      segment := segment + [HexDigit(bytes[i] % 16)];
    }
    assert bytes[..|bytes|] == bytes;
  }

  lemma NamespaceInjective(a: string, b: string)
    requires Namespace(a) == Namespace(b)
    ensures a == b
  {
    assert Hex(Encode(a)) == Namespace(a)[|NAMESPACE_PREFIX|..] == Namespace(b)[|NAMESPACE_PREFIX|..] == Hex(Encode(b));
    HexInjective(Encode(a), Encode(b));
    EncodeInjective(a, b);
  }

  /** The path of a workspace below the workspace root. */
  function SourceWorkspaceKey(sourceId: string, identifier: string): string {
    var issueKey := SanitizeWorkspaceKey(identifier);
    if sourceId == DEFAULT_SOURCE_ID then issueKey else Namespace(sourceId) + "/" + issueKey
  }

  /** Workspaces are shared exactly by issues of one source whose identifiers sanitise alike. */
  lemma SourceWorkspaceKeyInjective(s1: string, i1: string, s2: string, i2: string)
    ensures SourceWorkspaceKey(s1, i1) == SourceWorkspaceKey(s2, i2) <==>
            s1 == s2 && SanitizeWorkspaceKey(i1) == SanitizeWorkspaceKey(i2)
  {
    var k1, k2 := SourceWorkspaceKey(s1, i1), SourceWorkspaceKey(s2, i2);
    if s1 != DEFAULT_SOURCE_ID {
      assert k1[|Namespace(s1)|] == '/';
    }
    if s2 != DEFAULT_SOURCE_ID {
      assert k2[|Namespace(s2)|] == '/';
    }
    if k1 == k2 && s1 != DEFAULT_SOURCE_ID {
      FirstSeparator('/', Namespace(s1), SanitizeWorkspaceKey(i1), Namespace(s2), SanitizeWorkspaceKey(i2));
      NamespaceInjective(s1, s2);
    }
  }
}
