/** What a step prints from a buffer: a C string, which ends at the first zero byte. */
module Screens {
  import opened Bytes
  import opened Device
  import opened NumberHelpers

  function ZeroAt(s: string): (r: nat)
    ensures r <= |s| && NUL !in s[..r] && (r < |s| ==> s[r] == NUL)
  {
    if s == [] || s[0] == NUL then 0
    else
      assert forall k: nat :: k < |s| - 1 ==> s[..1 + k] == [s[0]] + s[1..][..k];
      1 + ZeroAt(s[1..])
  }

  /** The characters before the first zero byte, or all of the buffer when there is none. */
  function CText(s: string): (r: string)
    ensures r <= s && NUL !in r
  {
    s[..ZeroAt(s)]
  }

  lemma ZeroIs(s: string, k: nat)
    requires k <= |s| && NUL !in s[..k] && (k < |s| ==> s[k] == NUL)
    ensures ZeroAt(s) == k
  {
    assert forall i | 0 <= i < k :: s[i] == s[..k][i];
    assert forall i | 0 <= i < ZeroAt(s) :: s[i] == s[..ZeroAt(s)][i];
  }

  /** A text is shown as it is if and only if it holds no zero byte and is followed by one, or by the
      end of the buffer. */
  lemma ShownExactly(text: string, after: string)
    ensures CText(text + after) == text <==> NUL !in text && (after == [] || after[0] == NUL)
  {
    var s := text + after;
    assert s[..|text|] == text;
    if NUL !in text && (after == [] || after[0] == NUL) {
      ZeroIs(s, |text|);
    }
    if CText(s) == text && after != [] {
      assert s[|text|] == after[0];
    }
  }

  /** Otherwise it is cut at its first zero byte, or what the buffer held before shows behind it. */
  lemma ShownOtherwise(text: string, after: string)
    ensures NUL in text ==> CText(text + after) == CText(text)
    ensures NUL !in text ==> CText(text + after) == text + CText(after)
  {
    var s := text + after;
    if NUL in text {
      var z := ZeroAt(text);
      assert text[..|text|] == text;
      assert s[..z] == text[..z];
      ZeroIs(s, z);
    } else {
      var z := ZeroAt(after);
      assert s[..|text| + z] == text + after[..z];
      ZeroIs(s, |text| + z);
    }
  }

  /** A text with its terminator is shown up to its first zero byte, whatever the buffer holds behind. */
  lemma Terminated(text: string, after: string)
    ensures CText(text + [NUL] + after) == CText(text)
    ensures NUL !in text <==> CText(text) == text
  {
    assert text + [NUL] + after == text + ([NUL] + after);
    ShownOtherwise(text, [NUL] + after);
    ShownExactly(text, []);
    assert text + [] == text && CText([NUL] + after) == [];
    assert text + "" == text;
  }

  /** What the screens depend on besides what has been received: the hash function of the address texts,
      and what the memo buffer held before. */
  datatype View = View(sha: Sha256, stale: Memory)

  const DISPLAY_SIZE := 255

  /** The memo buffer and the 255 bytes behind it, the furthest that a copy into it can reach. */
  type Memory = s: string | |s| == 510 witness seq(510, i => NUL)

  lemma NoZeroInChars(b: bytes)
    ensures NUL in Chars(b) <==> 0 in b
  {
    if 0 in b {
      var i :| 0 <= i < |b| && b[i] == 0;
      assert Chars(b)[i] == NUL;
    }
  }

  /** Two byte strings look the same if and only if they agree up to their first zero. */
  function BeforeZero(b: bytes): (r: bytes)
    ensures r <= b && 0 !in r && (r == b || b[|r|] == 0)
  {
    if b == [] || b[0] == 0 then [] else [b[0]] + BeforeZero(b[1..])
  }

  lemma TextOfBytes(b: bytes)
    ensures CText(Chars(b)) == Chars(BeforeZero(b))
  {
    var k := |BeforeZero(b)|;
    assert Chars(b)[..k] == Chars(BeforeZero(b));
    NoZeroInChars(BeforeZero(b));
    ZeroIs(Chars(b), k);
  }

  lemma SameText(a: bytes, b: bytes)
    ensures CText(Chars(a)) == CText(Chars(b)) <==> BeforeZero(a) == BeforeZero(b)
    ensures 0 !in a && 0 !in b && CText(Chars(a)) == CText(Chars(b)) ==> a == b
  {
    TextOfBytes(a);
    TextOfBytes(b);
    if CText(Chars(a)) == CText(Chars(b)) { CharsInjective(BeforeZero(a), BeforeZero(b)); }
  }
}
