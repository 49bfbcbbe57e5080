/** Concatenated lists of byte strings, and when a concatenation can be taken apart again. */
module Lists {
  import opened Bytes

  function Flat(items: seq<bytes>): (r: bytes)
  {
    if items == [] then [] else Flat(items[..|items| - 1]) + items[|items| - 1]
  }

  predicate AllOf(items: seq<bytes>, length: nat) {
    forall i | 0 <= i < |items| :: |items[i]| == length
  }

  lemma Regroup<T>(a: seq<T>, b: seq<T>, c: seq<T>)
    ensures a + (b + c) == a + b + c
  {
  }

  lemma TakeDrop<T>(s: seq<T>, k: nat)
    requires k <= |s|
    ensures s[..k] + s[k..] == s
  {
  }

  lemma Slice<T>(s: seq<T>, lo: nat, hi: nat, i: nat, j: nat)
    requires lo <= hi <= |s| && i <= j <= hi - lo
    ensures s[lo..hi][i..j] == s[lo + i..lo + j]
  {
    var x, y := s[lo..hi][i..j], s[lo + i..lo + j];
    forall k | 0 <= k < j - i
      ensures x[k] == y[k]
    {
      assert s[lo..hi][i + k] == s[lo + i + k];
    }
    assert x == y;
  }

  lemma FlatAppend(items: seq<bytes>, item: bytes)
    ensures Flat(items + [item]) == Flat(items) + item
  {
    assert (items + [item])[..|items|] == items;
  }

  lemma {:induction false} FlatConcat(a: seq<bytes>, b: seq<bytes>)
    ensures Flat(a + b) == Flat(a) + Flat(b)
  {
    if b == [] {
      assert a + b == a;
    } else {
      var n := |b| - 1;
      FlatConcat(a, b[..n]);
      FlatAppend(a + b[..n], b[n]);
      assert a + b[..n] + [b[n]] == a + b;
    }
  }

  lemma {:induction false} FlatCons(items: seq<bytes>)
    requires items != []
    ensures Flat(items) == items[0] + Flat(items[1..])
  {
    var n := |items| - 1;
    if n > 0 {
      FlatCons(items[..n]);
      assert items[..n][1..] == items[1..][..n - 1];
      assert Flat(items[1..]) == Flat(items[1..][..n - 1]) + items[n];
    } else {
      assert Flat(items[..0]) == [];
      assert Flat(items[1..]) == [];
    }
  }

  /** Two strings that start with pieces of one length agree on both parts. */
  lemma Split<T>(a: seq<T>, b: seq<T>, r: seq<T>, s: seq<T>)
    requires |a| == |b| && a + r == b + s
    ensures a == b && r == s
  {
    assert a == (a + r)[..|a|] && b == (b + s)[..|b|];
    assert r == (a + r)[|a|..] && s == (b + s)[|b|..];
  }

  /** The same for lists of one length whose items have a fixed length. */
  lemma {:induction false} SplitFlat(x: seq<bytes>, y: seq<bytes>, length: nat, r: bytes, s: bytes)
    requires |x| == |y| && AllOf(x, length) && AllOf(y, length)
    requires Flat(x) + r == Flat(y) + s
    ensures x == y && r == s
  {
    if x == [] {
      assert Flat(x) + r == r && Flat(y) + s == s;
    } else {
      FlatCons(x);
      FlatCons(y);
      assert Flat(x) + r == x[0] + (Flat(x[1..]) + r);
      assert Flat(y) + s == y[0] + (Flat(y[1..]) + s);
      Split(x[0], y[0], Flat(x[1..]) + r, Flat(y[1..]) + s);
      SplitFlat(x[1..], y[1..], length, r, s);
      assert x == [x[0]] + x[1..] && y == [y[0]] + y[1..];
    }
  }

  lemma Put4Injective(m: u32, n: u32)
    requires Put4(m) == Put4(n)
    ensures m == n
  {
    Split(Put2(m / 0x1_0000), Put2(n / 0x1_0000), Put2(m % 0x1_0000), Put2(n % 0x1_0000));
    Put2Injective(m / 0x1_0000, n / 0x1_0000);
    Put2Injective(m % 0x1_0000, n % 0x1_0000);
  }

  /** A list of 16-bit length whose items have a fixed length. */
  lemma SplitCounted(x: seq<bytes>, y: seq<bytes>, length: nat, r: bytes, s: bytes)
    requires |x| < 0x1_0000 && |y| < 0x1_0000 && AllOf(x, length) && AllOf(y, length)
    requires Put2(|x|) + Flat(x) + r == Put2(|y|) + Flat(y) + s
    ensures x == y && r == s
  {
    hide Flat, Put2;
    Regroup(Put2(|x|), Flat(x), r);
    Regroup(Put2(|y|), Flat(y), s);
    Split(Put2(|x|), Put2(|y|), Flat(x) + r, Flat(y) + s);
    Put2Injective(|x|, |y|);
    SplitFlat(x, y, length, r, s);
  }

  /** Where an item of a list stands. */
  lemma FlatItem(items: seq<bytes>, i: nat)
    requires i < |items|
    ensures var at := |Flat(items[..i])|;
            at + |items[i]| <= |Flat(items)| && Flat(items)[at..at + |items[i]|] == items[i]
  {
    FlatConcat(items[..i + 1], items[i + 1..]);
    assert items[..i + 1] + items[i + 1..] == items;
    assert items[..i + 1][..i] == items[..i];
  }

  lemma {:induction false} FlatLength(items: seq<bytes>, length: nat)
    requires AllOf(items, length)
    ensures |Flat(items)| == |items| * length
  {
    if items != [] {
      var n := |items| - 1;
      FlatLength(items[..n], length);
      assert n * length + length == |items| * length;
    }
  }

  lemma FlatPart(items: seq<bytes>, length: nat, i: nat)
    requires AllOf(items, length) && i < |items|
    ensures |items[i]| == length && |Flat(items[..i])| == i * length
  {
    FlatLength(items[..i], length);
  }

  /** Cutting a byte string into items of one length. */
  lemma {:induction false} CutEvenly(b: bytes, length: nat, n: nat) returns (items: seq<bytes>)
    requires |b| == n * length
    ensures AllOf(items, length) && |items| == n && Flat(items) == b
  {
    items := [];
    if n > 0 {
      assert (n - 1) * length + length == n * length;
      var at := |b| - length;
      items := CutEvenly(b[..at], length, n - 1);
      FlatAppend(items, b[at..]);
      items := items + [b[at..]];
      assert b[..at] + b[at..] == b;
    }
  }

  lemma SameNumber(m: byte, n: byte)
    requires [m] == [n]
    ensures m == n
  {
    assert [m][0] == [n][0];
  }

  // ------------------------------------------------------------------ cutting a byte string into packets

  ghost predicate Chunks(items: seq<bytes>) {
    forall i | 0 <= i < |items| :: |items[i]| <= 255
  }

  function Cut(b: bytes): (r: seq<bytes>) {
    if b == [] then []
    else
      var at := if |b| <= 255 then 0 else |b| - 255;
      Cut(b[..at]) + [b[at..]]
  }

  lemma {:induction false} CutFlat(b: bytes)
    ensures Chunks(Cut(b)) && Flat(Cut(b)) == b
    ensures Cut(b) == [] <==> b == []
    ensures b != [] ==> Cut(b)[|Cut(b)| - 1] != []
  {
    if b != [] {
      var at := if |b| <= 255 then 0 else |b| - 255;
      CutFlat(b[..at]);
      FlatAppend(Cut(b[..at]), b[at..]);
      assert b[..at] + b[at..] == b;
    }
  }

  /** How much the first pieces hold. */
  lemma Prefixes(pieces: seq<bytes>, k: nat)
    requires k < |pieces| && pieces[|pieces| - 1] != []
    ensures pieces[..k] + [pieces[k]] == pieces[..k + 1]
    ensures |Flat(pieces[..k])| + |pieces[k]| == |Flat(pieces[..k + 1])| <= |Flat(pieces)|
    ensures |Flat(pieces[..k + 1])| == |Flat(pieces)| <==> k + 1 == |pieces|
  {
    FlatAppend(pieces[..k], pieces[k]);
    assert pieces[..k] + [pieces[k]] == pieces[..k + 1];
    FlatConcat(pieces[..k + 1], pieces[k + 1..]);
    assert pieces[..k + 1] + pieces[k + 1..] == pieces;
    if k + 1 < |pieces| {
      var rest := pieces[k + 1..];
      assert rest[|rest| - 1] == pieces[|pieces| - 1];
      assert |Flat(rest)| >= |rest[|rest| - 1]|;
    } else {
      assert Flat([]) == [];
    }
  }
}
