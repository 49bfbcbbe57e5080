/** The screens of an add-identity-provider update determine it as far as it is shown. */
module IdentityProviderShown {
  import opened Bytes
  import opened Lists
  import opened Device
  import opened DecimalText
  import opened PaginatedHex
  import opened Screens
  import opened IdentityProviderTx

  // ------------------------------------------------------------------ taking the flows apart

  function TitleOf(flow: Flow): (r: string) {
    if flow != [] && (flow[0].Show? || flow[0].Continue?) then flow[0].title else ""
  }

  ghost predicate Titled(flows: seq<Flow>, title: string) {
    forall i | 0 <= i < |flows| :: TitleOf(flows[i]) == title
  }

  ghost predicate OtherTitle(flows: seq<Flow>, title: string) {
    flows != [] ==> TitleOf(flows[0]) != title
  }

  lemma MoreTitled(a: seq<Flow>, r: seq<Flow>, b: seq<Flow>, s: seq<Flow>, title: string)
    requires Titled(b, title) && OtherTitle(r, title) && |a| < |b|
    ensures a + r != b + s
  {
    hide TitleOf;
    assert (b + s)[|a|] == b[|a|];
    assert r != [] ==> (a + r)[|a|] == r[0];
  }

  /** Flows of one title can be told from what follows them. */
  lemma SplitTitled(a: seq<Flow>, r: seq<Flow>, b: seq<Flow>, s: seq<Flow>, title: string)
    requires Titled(a, title) && Titled(b, title) && OtherTitle(r, title) && OtherTitle(s, title)
    requires a + r == b + s
    ensures a == b && r == s
  {
    hide Titled, OtherTitle;
    if |a| < |b| {
      MoreTitled(a, r, b, s, title);
    } else if |b| < |a| {
      MoreTitled(b, s, a, r, title);
    } else {
      Split(a, b, r, s);
    }
  }

  lemma PieceTitles(behind: Behind, i: nat, pieces: seq<bytes>)
    ensures Titled(PieceFlows(behind, i, pieces), PartName(i)) && |PieceFlows(behind, i, pieces)| == |pieces|
  {
    hide PieceText;
  }

  lemma After(a: seq<Flow>, own: string, rest: seq<Flow>, title: string)
    requires Titled(a, own) && own != title && OtherTitle(rest, title)
    ensures OtherTitle(a + rest, title)
  {
    hide TitleOf;
    if a == [] { assert a + rest == rest; }
  }

  /** The flows of the three descriptions, and what follows them. */
  lemma SplitThree(
    a0: seq<Flow>, a1: seq<Flow>, a2: seq<Flow>, a3: seq<Flow>, b0: seq<Flow>, b1: seq<Flow>, b2: seq<Flow>, b3: seq<Flow>)
    requires Titled(a0, "Name") && Titled(a1, "URL") && Titled(a2, "Description")
    requires Titled(b0, "Name") && Titled(b1, "URL") && Titled(b2, "Description")
    requires OtherTitle(a3, "Name") && OtherTitle(a3, "URL") && OtherTitle(a3, "Description")
    requires OtherTitle(b3, "Name") && OtherTitle(b3, "URL") && OtherTitle(b3, "Description")
    requires a0 + (a1 + (a2 + a3)) == b0 + (b1 + (b2 + b3))
    ensures a0 == b0 && a1 == b1 && a2 == b2 && a3 == b3
  {
    hide Titled, OtherTitle;
    After(a2, "Description", a3, "Name");
    After(a1, "URL", a2 + a3, "Name");
    After(b2, "Description", b3, "Name");
    After(b1, "URL", b2 + b3, "Name");
    SplitTitled(a0, a1 + (a2 + a3), b0, b1 + (b2 + b3), "Name");
    After(a2, "Description", a3, "URL");
    After(b2, "Description", b3, "URL");
    SplitTitled(a1, a2 + a3, b1, b2 + b3, "URL");
    SplitTitled(a2, a3, b2, b3, "Description");
  }

  /** A text that fills the buffer, without an end in it. */
  predicate Full(piece: bytes) {
    |piece| >= TEXT_SIZE && 0 !in piece
  }

  /** Two pieces look the same, with b and c behind them. */
  ghost predicate SamePiece(b: string, x: bytes, c: string, y: bytes) {
    BeforeZero(x) == BeforeZero(y) && (Full(x) ==> CText(b) == CText(c))
  }

  /** The text of a piece up to its end. */
  lemma TextOfPiece(b: string, x: bytes)
    requires |x| <= TEXT_SIZE
    ensures PieceText(b, x) == Chars(BeforeZero(x)) + if Full(x) then CText(b) else []
    ensures |BeforeZero(x)| == TEXT_SIZE <==> Full(x)
  {
    TextOfBytes(x);
    NoZeroInChars(x);
    if |x| == TEXT_SIZE { ShownOtherwise(Chars(x), b); }
    assert Chars(BeforeZero(x)) + [] == Chars(BeforeZero(x));
    if 0 !in x { assert BeforeZero(x) == x; }
  }

  lemma SamePieceText(b: string, x: bytes, c: string, y: bytes)
    requires |x| <= TEXT_SIZE && |y| <= TEXT_SIZE
    ensures PieceText(b, x) == PieceText(c, y) <==> SamePiece(b, x, c, y)
  {
    hide PieceText, Full, CText;
    TextOfPiece(b, x);
    TextOfPiece(c, y);
    var u, v := Chars(BeforeZero(x)), Chars(BeforeZero(y));
    if PieceText(b, x) == PieceText(c, y) {
      SplitTexts(u, if Full(x) then CText(b) else [], v, if Full(y) then CText(c) else []);
      CharsInjective(BeforeZero(x), BeforeZero(y));
    }
  }

  /** Texts that are followed by something only when they have the greatest length. */
  lemma SplitTexts(u: string, r: string, v: string, s: string)
    requires |u| <= TEXT_SIZE && |v| <= TEXT_SIZE && u + r == v + s
    requires (|u| < TEXT_SIZE ==> r == []) && (|v| < TEXT_SIZE ==> s == [])
    ensures u == v && r == s
  {
    if |u| == |v| { Split(u, v, r, s); }
  }

  /** All pieces look the same. */
  ghost predicate Alike(b: string, x: seq<bytes>, c: string, y: seq<bytes>) {
    |x| == |y| && forall k | 0 <= k < |x| :: SamePiece(b, x[k], c, y[k])
  }

  lemma PartShown(behind: Behind, other: Behind, i: nat, x: seq<bytes>, y: seq<bytes>)
    requires Chunks(x) && Chunks(y)
    ensures PieceFlows(behind, i, x) == PieceFlows(other, i, y) <==> Alike(behind(i), x, other(i), y)
    ensures Titled(PieceFlows(behind, i, x), PartName(i)) && Titled(PieceFlows(other, i, y), PartName(i))
  {
    PieceTitles(behind, i, x);
    PieceTitles(other, i, y);
    hide PieceText, SamePiece;
    forall k | 0 <= k < |x| && k < |y|
      ensures PieceFlows(behind, i, x)[k] == PieceFlows(other, i, y)[k] <==> SamePiece(behind(i), x[k], other(i), y[k])
    {
      SamePieceText(behind(i), x[k], other(i), y[k]);
      if PieceFlows(behind, i, x)[k] == PieceFlows(other, i, y)[k] {
        assert PieceFlows(behind, i, x)[k][0] == PieceFlows(other, i, y)[k][0];
      }
    }
  }

  /** Pieces without a zero byte are then the same, whatever lies behind them. */
  lemma NoZeroAlike(b: string, x: seq<bytes>, c: string, y: seq<bytes>)
    requires Alike(b, x, c, y) && (forall k | 0 <= k < |x| :: 0 !in x[k]) && (forall k | 0 <= k < |y| :: 0 !in y[k])
    ensures x == y
  {
    forall k | 0 <= k < |x|
      ensures x[k] == y[k]
    {
      assert SamePiece(b, x[k], c, y[k]);
      assert BeforeZero(x[k]) == x[k] && BeforeZero(y[k]) == y[k];
    }
  }

  // ------------------------------------------------------------------ the whole session

  ghost function EndFlows(sha: Sha256, p: Progress): (r: seq<Flow>)
    requires |p.cdi| == 32
  {
    [KeyFlow(sha, p.key)] + [FinishFlow(p.cdi)]
  }

  lemma LaidOut(sha: Sha256, behind: Behind, p: Progress)
    requires ProgressOk(p) && p.stage.Done?
    ensures |p.parts| == 3 && |p.ip| == 4 && |p.cdi| == 32
    ensures Rendered(sha, behind, p) == [StartFlow(p.ip)]
                                + (PieceFlows(behind, 0, p.parts[0]) + (PieceFlows(behind, 1, p.parts[1])
                                + (PieceFlows(behind, 2, p.parts[2]) + EndFlows(sha, p))))
  {
    var parts := p.parts;
    ThreeFlows(behind, parts);
    PieceFlowsAppend(behind, 3, [], []);
    assert |p.parts| == 3 && p.pieces == [] && |p.ip| == 4 && |p.cdi| == 32;
    hide ProgressOk, PieceFlows, StartFlow, KeyFlow, FinishFlow, PartsFlows;
    Nested([StartFlow(p.ip)], PieceFlows(behind, 0, parts[0]), PieceFlows(behind, 1, parts[1]),
           PieceFlows(behind, 2, parts[2]),
           [KeyFlow(sha, p.key)], [FinishFlow(p.cdi)]);
  }

  lemma Nested(s: seq<Flow>, a: seq<Flow>, b: seq<Flow>, c: seq<Flow>, k: seq<Flow>, f: seq<Flow>)
    ensures s + (a + b + c) + [] + k + f == s + (a + (b + (c + (k + f))))
  {
  }

  lemma ThreeFlows(behind: Behind, parts: seq<seq<bytes>>)
    requires |parts| == 3
    ensures PartsFlows(behind, parts)
         == PieceFlows(behind, 0, parts[0]) + PieceFlows(behind, 1, parts[1]) + PieceFlows(behind, 2, parts[2])
  {
    hide PieceFlows;
    var one, two := parts[..1], parts[..2];
    assert parts[..2][..1] == one && one[..0] == [];
    assert PartsFlows(behind, one) == [] + PieceFlows(behind, 0, parts[0]) == PieceFlows(behind, 0, parts[0]);
    assert PartsFlows(behind, two) == PartsFlows(behind, one) + PieceFlows(behind, 1, parts[1]);
  }

  lemma EndTitles(sha: Sha256, p: Progress)
    requires |p.cdi| == 32
    ensures OtherTitle(EndFlows(sha, p), "Name") && OtherTitle(EndFlows(sha, p), "URL")
    ensures OtherTitle(EndFlows(sha, p), "Description")
  {
    hide PagedHex;
  }

  lemma EndSame(sha: Sha256, p: Progress, q: Progress)
    requires |p.cdi| == |q.cdi| == 32
    ensures EndFlows(sha, p) == EndFlows(sha, q) <==> sha(p.key) == sha(q.key) && p.cdi == q.cdi
  {
    hide PagedHex;
    if EndFlows(sha, p) == EndFlows(sha, q) {
      assert EndFlows(sha, p)[0] == EndFlows(sha, q)[0] && EndFlows(sha, p)[1] == EndFlows(sha, q)[1];
      assert KeyFlow(sha, p.key)[0] == KeyFlow(sha, q.key)[0] && FinishFlow(p.cdi)[0] == FinishFlow(q.cdi)[0];
      PagedHexInjective(sha(p.key), sha(q.key));
      PagedHexInjective(p.cdi, q.cdi);
    }
  }

  lemma StartSame(x: bytes, y: bytes)
    requires |x| == |y| == 4
    ensures StartFlow(x) == StartFlow(y) <==> x == y
  {
    hide Dec, U4BE;
    if StartFlow(x) == StartFlow(y) {
      assert StartFlow(x)[2] == StartFlow(y)[2];
      DecInjective(U4BE(x, 0), U4BE(y, 0));
      SameNumber4(x, y);
    }
  }

  lemma SameNumber4(x: bytes, y: bytes)
    requires |x| == |y| == 4 && U4BE(x, 0) == U4BE(y, 0)
    ensures x == y
  {
    Put4Get4(x, 0);
    Put4Get4(y, 0);
    assert x[0..4] == x && y[0..4] == y;
  }

  /** Two updates have the same screens, with whatever behind their text buffers, if and only if they have
      the same number, pieces that look the same, verify keys of the same hash, and the same CDI key.
      Without zero bytes the pieces are then the same, by NoZeroAlike. */
  lemma ShownDetermines(sha: Sha256, behind: Behind, other: Behind, p: Progress, q: Progress)
    requires ProgressOk(p) && ProgressOk(q) && p.stage.Done? && q.stage.Done?
    ensures |p.parts| == |q.parts| == 3
    ensures Rendered(sha, behind, p) == Rendered(sha, other, q) <==>
      && p.ip == q.ip && sha(p.key) == sha(q.key) && p.cdi == q.cdi
      && Alike(behind(0), p.parts[0], other(0), q.parts[0]) && Alike(behind(1), p.parts[1], other(1), q.parts[1])
      && Alike(behind(2), p.parts[2], other(2), q.parts[2])
  {
    LaidOut(sha, behind, p);
    LaidOut(sha, other, q);
    StartSame(p.ip, q.ip);
    EndSame(sha, p, q);
    EndTitles(sha, p);
    EndTitles(sha, q);
    var a0, a1 := PieceFlows(behind, 0, p.parts[0]), PieceFlows(behind, 1, p.parts[1]);
    var a2, a3 := PieceFlows(behind, 2, p.parts[2]), EndFlows(sha, p);
    var b0, b1 := PieceFlows(other, 0, q.parts[0]), PieceFlows(other, 1, q.parts[1]);
    var b2, b3 := PieceFlows(other, 2, q.parts[2]), EndFlows(sha, q);
    PartShown(behind, other, 0, p.parts[0], q.parts[0]);
    PartShown(behind, other, 1, p.parts[1], q.parts[1]);
    PartShown(behind, other, 2, p.parts[2], q.parts[2]);
    assert PartName(0) == "Name" && PartName(1) == "URL" && PartName(2) == "Description";
    hide ProgressOk, Rendered, StartFlow, EndFlows, PieceFlows, Alike, PartName, Titled, OtherTitle;
    if Rendered(sha, behind, p) == Rendered(sha, other, q) {
      Split([StartFlow(p.ip)], [StartFlow(q.ip)], a0 + (a1 + (a2 + a3)), b0 + (b1 + (b2 + b3)));
      assert [StartFlow(p.ip)][0] == [StartFlow(q.ip)][0];
      SplitThree(a0, a1, a2, a3, b0, b1, b2, b3);
    }
  }
}
