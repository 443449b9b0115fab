/** Well-formed UTF-8 (RFC 3629, sections 3 and 4) and safeUtf8Prefix of src/core/localization.js. */
module Utf8 {
  import opened Basics

  predicate Tail(b: byte) {
    0x80 <= b <= 0xBF
  }

  /** How long the well-formed character at the head is; 0 when there is none. */
  function CharLength(s: Bytes): (n: nat)
    ensures n <= 4 && n <= |s|
  {
    if |s| >= 1 && s[0] <= 0x7F then 1
    else if |s| >= 2 && 0xC2 <= s[0] <= 0xDF && Tail(s[1]) then 2
    else if |s| >= 3 && Tail(s[2])
            && ((s[0] == 0xE0 && 0xA0 <= s[1] <= 0xBF)
                || (0xE1 <= s[0] <= 0xEC && Tail(s[1]))
                || (s[0] == 0xED && 0x80 <= s[1] <= 0x9F)
                || (0xEE <= s[0] <= 0xEF && Tail(s[1]))) then 3
    else if |s| >= 4 && Tail(s[2]) && Tail(s[3])
            && ((s[0] == 0xF0 && 0x90 <= s[1] <= 0xBF)
                || (0xF1 <= s[0] <= 0xF3 && Tail(s[1]))
                || (s[0] == 0xF4 && 0x80 <= s[1] <= 0x8F)) then 4
    else 0
  }

  predicate ValidUtf8(s: Bytes) {
    s == [] || (CharLength(s) > 0 && ValidUtf8(s[CharLength(s)..]))
  }

  /** The length of the first character does not depend on what follows it. */
  lemma CharIsLocal(s: Bytes, k: nat)
    requires 0 < CharLength(s) <= k <= |s|
    ensures CharLength(s[..k]) == CharLength(s)
  {
  }

  /** Cutting well-formed text anywhere leaves a well-formed prefix at most three bytes shorter. */
  lemma {:induction false} CutDropsAtMostThree(s: Bytes, cut: nat) returns (end: nat)
    requires ValidUtf8(s) && cut <= |s|
    ensures end <= cut <= end + 3 && ValidUtf8(s[..end])
    decreases |s|
  {
    var n := CharLength(s);
    if cut == 0 || cut < n {
      end := 0;
    } else {
      var rest := CutDropsAtMostThree(s[n..], cut - n);
      end := n + rest;
      CharIsLocal(s, end);
      assert s[..end][n..] == s[n..][..rest];
    }
  }

  function Min(a: nat, b: nat): nat {
    if a <= b then a else b
  }

  /** In well-formed text the longest well-formed prefix within a budget loses at most three bytes. */
  lemma LongestPrefixIsLong(bytes: Bytes, maximum: nat, n: nat)
    requires ValidUtf8(bytes)
    requires forall k :: n < k <= Min(|bytes|, maximum) ==> !ValidUtf8(bytes[..k])
    ensures n + 3 >= Min(|bytes|, maximum)
    ensures |bytes| <= maximum ==> n >= |bytes|
  {
    var cut := CutDropsAtMostThree(bytes, Min(|bytes|, maximum));
    assert bytes[..|bytes|] == bytes;
  }

  /** How long the longest well-formed prefix of at most `cut` bytes is. */
  function LongestPrefix(bytes: Bytes, cut: nat): (n: nat)
    requires cut <= |bytes|
    ensures n <= cut && ValidUtf8(bytes[..n])
    ensures forall k :: n < k <= cut ==> !ValidUtf8(bytes[..k])
  {
    if cut == 0 || ValidUtf8(bytes[..cut]) then cut else LongestPrefix(bytes, cut - 1)
  }

  /** The longest well-formed prefix within the budget. */
  method SafeUtf8Prefix(bytes: Bytes, maximum: nat) returns (prefix: Bytes)
    ensures prefix == bytes[..LongestPrefix(bytes, Min(|bytes|, maximum))]
  {
    var end := Min(|bytes|, maximum);
    while end > 0
      invariant 0 <= end <= Min(|bytes|, maximum)
      invariant LongestPrefix(bytes, end) == LongestPrefix(bytes, Min(|bytes|, maximum))
    {
      if ValidUtf8(bytes[..end]) { return bytes[..end]; }
      end := end - 1;
    }
    return [];
  }

  /** Text of single-byte characters can be cut anywhere. */
  lemma {:induction false} AsciiIsText(bytes: Bytes)
    requires forall i :: 0 <= i < |bytes| ==> bytes[i] <= 0x7F
    ensures ValidUtf8(bytes)
  {
    if bytes != [] {
      AsciiIsText(bytes[1..]);
    }
  }
}
