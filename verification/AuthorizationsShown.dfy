/** The screens of a level 2 key update determine what is signed, up to the header and the schemes of
    the keys. */
module AuthorizationsShown {
  import opened Bytes
  import opened Lists
  import opened Device
  import opened DecimalText
  import opened PaginatedHex
  import opened AuthorizationsTx
  import opened AuthorizationsRuns

  /** The title of a flow that consists of one step with a callback. */
  function Title(flow: Flow): (r: string) {
    if |flow| == 1 && flow[0].Continue? then flow[0].title else ""
  }

  lemma NamesDiffer(i: byte, j: byte)
    requires i < 15 && j < 15 && AuthorizationName(i).value == AuthorizationName(j).value
    ensures i == j
  {
    var a, b := AuthorizationName(i).value, AuthorizationName(j).value;
    assert |a| == |b| && a[0] == b[0] && a[|a| - 1] == b[|b| - 1] && (|a| > 4 ==> a[4] == b[4]);
  }

  /** No structure is called like the flows around its indices. */
  lemma NamesReserved(i: byte)
    requires i < 15
    ensures AuthorizationName(i).value !in ["Threshold", "Public key", ""]
  {
    var a := AuthorizationName(i).value;
    assert |a| >= 8 && (a[0] != 'T' || |a| != 9) && (a[0] != 'P' || |a| != 10);
  }

  lemma IndexShown(a: bytes, b: bytes, s: string, t: string)
    requires |a| == |b| == 2 && IndexFlow(s, a) == IndexFlow(t, b)
    ensures a == b && s == t
  {
    assert IndexFlow(s, a)[0] == IndexFlow(t, b)[0];
    ReadDec(U2BE(a, 0));
    ReadDec(U2BE(b, 0));
    hide Dec, Read;
    assert U2BE(a, 0) == U2BE(b, 0);
    assert a[0] == b[0] && a[1] == b[1];
  }

  lemma KeyShown(a: bytes, b: bytes)
    requires |a| == |b| == 33 && KeyFlow(a) == KeyFlow(b)
    ensures a[1..] == b[1..]
  {
    assert KeyFlow(a)[0] == KeyFlow(b)[0];
    PagedHexInjective(a[1..], b[1..]);
  }

  // ------------------------------------------------------------------ indices

  /** The flows do not end with an index of this kind. */
  predicate EndsBefore(flows: seq<Flow>, name: string) {
    flows != [] ==> Title(flows[|flows| - 1]) != name
  }

  lemma Last<T>(x: seq<T>, a: T, y: seq<T>, b: T)
    requires x + [a] == y + [b]
    ensures x == y && a == b
  {
    assert (x + [a])[|x|] == (y + [b])[|y|];
    assert x == (x + [a])[..|x|] && y == (y + [b])[..|y|];
  }

  lemma {:induction false} SameIndices(kind: byte, x: seq<Flow>, a: seq<bytes>, y: seq<Flow>, b: seq<bytes>)
    requires kind < 15 && AllOf(a, 2) && AllOf(b, 2)
    requires EndsBefore(x, AuthorizationName(kind).value) && EndsBefore(y, AuthorizationName(kind).value)
    requires x + IndexFlows(kind, a) == y + IndexFlows(kind, b)
    ensures x == y && a == b
    decreases |a|
  {
    var name := AuthorizationName(kind).value;
    hide AuthorizationName;
    if a != [] && b != [] {
      var m, n := |a| - 1, |b| - 1;
      assert a == a[..m] + [a[m]] && b == b[..n] + [b[n]];
      IndexFlowsAppend(kind, a[..m], a[m]);
      IndexFlowsAppend(kind, b[..n], b[n]);
      var f, g := IndexFlow(name, a[m]), IndexFlow(name, b[n]);
      hide IndexFlow, IndexFlows;
      Regroup(x, IndexFlows(kind, a[..m]), [f]);
      Regroup(y, IndexFlows(kind, b[..n]), [g]);
      Last(x + IndexFlows(kind, a[..m]), f, y + IndexFlows(kind, b[..n]), g);
      IndexShown(a[m], b[n], name, name);
      SameIndices(kind, x, a[..m], y, b[..n]);
    } else if a != [] {
      NoIndices(kind, x, a, y);
    } else if b != [] {
      NoIndices(kind, y, b, x);
    } else {
      assert IndexFlows(kind, a) == [] && x + [] == x && y + [] == y;
    }
  }

  lemma NoIndices(kind: byte, x: seq<Flow>, a: seq<bytes>, y: seq<Flow>)
    requires kind < 15 && AllOf(a, 2) && a != [] && EndsBefore(y, AuthorizationName(kind).value)
    ensures x + IndexFlows(kind, a) != y + IndexFlows(kind, [])
  {
    var z := x + IndexFlows(kind, a);
    assert z[|z| - 1] == IndexFlows(kind, a)[|a| - 1];
    assert y + IndexFlows(kind, []) == y;
  }

  // ------------------------------------------------------------------ structures

  /** Flows of the review and of keys only. */
  ghost predicate Plain(flows: seq<Flow>) {
    forall i | 0 <= i < |flows| :: Title(flows[i]) == "" || Title(flows[i]) == "Public key"
  }

  /** The flows before the indices of a structure do not end with an index. */
  lemma BeforeIndices(a: seq<Flow>, x: seq<Structure>, kind: byte)
    requires Plain(a) && Structures(x) && |x| <= 15 && kind < 15
    ensures EndsBefore(a + StructuresFlows(x), AuthorizationName(kind).value)
  {
    NamesReserved(kind);
    hide AuthorizationName, IndexFlows, Dec;
    var flows := a + StructuresFlows(x);
    if x != [] {
      assert flows[|flows| - 1] == IndexFlow("Threshold", x[|x| - 1].threshold);
    } else if a != [] {
      assert flows[|flows| - 1] == a[|a| - 1];
    }
  }

  lemma LastStructure(x: seq<Structure>)
    requires Structures(x) && 0 < |x| <= 15
    ensures var n := |x| - 1;
            && |x[n].indices| < 0x1_0000 && AllOf(x[n].indices, 2) && |x[n].threshold| == 2 && Structures(x[..n])
            && StructuresFlows(x)
                == StructuresFlows(x[..n]) + IndexFlows(n, x[n].indices) + [IndexFlow("Threshold", x[n].threshold)]
  {
  }

  lemma EndsWithThreshold(a: seq<Flow>, x: seq<Structure>)
    requires Structures(x) && 0 < |x| <= 15
    ensures var flows := a + StructuresFlows(x);
            flows != [] && Title(flows[|flows| - 1]) == "Threshold" && !Plain(flows)
  {
    LastStructure(x);
    hide IndexFlows, StructuresFlows, Dec;
    var flows := a + StructuresFlows(x);
    assert flows[|flows| - 1] == IndexFlow("Threshold", x[|x| - 1].threshold);
  }

  lemma {:induction false} SameStructures(a: seq<Flow>, x: seq<Structure>, b: seq<Flow>, y: seq<Structure>)
    requires Plain(a) && Plain(b) && Structures(x) && Structures(y) && |x| <= 15 && |y| <= 15
    requires a + StructuresFlows(x) == b + StructuresFlows(y)
    ensures a == b && x == y
    decreases |x|
  {
    hide AuthorizationName, IndexFlow, IndexFlows, Plain;
    if x == [] || y == [] {
      assert a + [] == a && b + [] == b;
      if x != [] { EndsWithThreshold(a, x); }
      if y != [] { EndsWithThreshold(b, y); }
    } else {
      var m, n := |x| - 1, |y| - 1;
      LastStructure(x);
      LastStructure(y);
      hide StructuresFlows;
      var s, t := x[m], y[n];
      var u, v := a + StructuresFlows(x[..m]), b + StructuresFlows(y[..n]);
      var f, g := IndexFlow("Threshold", s.threshold), IndexFlow("Threshold", t.threshold);
      Nest(a, StructuresFlows(x[..m]), IndexFlows(m, s.indices), f);
      Nest(b, StructuresFlows(y[..n]), IndexFlows(n, t.indices), g);
      Last(u + IndexFlows(m, s.indices), f, v + IndexFlows(n, t.indices), g);
      IndexShown(s.threshold, t.threshold, "Threshold", "Threshold");
      SameIndicesOf(a, x[..m], m, s.indices, b, y[..n], n, t.indices);
      SameStructures(a, x[..m], b, y[..n]);
      assert x == x[..m] + [s] && y == y[..n] + [t];
    }
  }

  lemma Nest<T>(a: seq<T>, b: seq<T>, c: seq<T>, d: T)
    ensures a + (b + c + [d]) == a + b + c + [d]
  {
  }

  /** The indices of the last structures, whatever their kinds. */
  lemma SameIndicesOf(a: seq<Flow>, x: seq<Structure>, m: byte, i: seq<bytes>, b: seq<Flow>, y: seq<Structure>,
      n: byte, j: seq<bytes>)
    requires Plain(a) && Plain(b) && Structures(x) && Structures(y) && |x| <= 15 && |y| <= 15
    requires m < 15 && n < 15 && AllOf(i, 2) && AllOf(j, 2)
    requires a + StructuresFlows(x) + IndexFlows(m, i) == b + StructuresFlows(y) + IndexFlows(n, j)
    ensures a + StructuresFlows(x) == b + StructuresFlows(y) && i == j
  {
    var u, v := a + StructuresFlows(x), b + StructuresFlows(y);
    BeforeIndices(a, x, m);
    BeforeIndices(b, y, n);
    BeforeIndices(a, x, n);
    BeforeIndices(b, y, m);
    hide AuthorizationName, StructuresFlows;
    if i == [] {
      assert IndexFlows(m, i) == IndexFlows(n, i) == [];
      SameIndices(n, u, i, v, j);
    } else if j == [] {
      assert IndexFlows(n, j) == IndexFlows(m, j) == [];
      SameIndices(m, u, i, v, j);
    } else {
      SameKind(u, m, i, v, n, j);
      SameIndices(m, u, i, v, j);
    }
  }

  lemma SameKind(u: seq<Flow>, m: byte, i: seq<bytes>, v: seq<Flow>, n: byte, j: seq<bytes>)
    requires m < 15 && n < 15 && AllOf(i, 2) && AllOf(j, 2) && i != [] && j != []
    requires u + IndexFlows(m, i) == v + IndexFlows(n, j)
    ensures m == n
  {
    hide AuthorizationName;
    var z := u + IndexFlows(m, i);
    assert z[|z| - 1] == IndexFlows(m, i)[|i| - 1] == IndexFlows(n, j)[|j| - 1];
    IndexShown(i[|i| - 1], j[|j| - 1], AuthorizationName(m).value, AuthorizationName(n).value);
    NamesDiffer(m, n);
  }

  // ------------------------------------------------------------------ keys

  lemma KeysPlain(updateType: byte, keys: seq<bytes>)
    requires AllOf(keys, 33)
    ensures Plain([[REVIEW, Continue("Update", TypeText(updateType))]] + KeyFlows(keys))
  {
    hide PagedHex, TypeText;
  }

  /** The same keys, but for the bytes that name the schemes. */
  ghost predicate LikeKeys(x: seq<bytes>, y: seq<bytes>)
    requires AllOf(x, 33) && AllOf(y, 33)
  {
    |x| == |y| && forall i | 0 <= i < |x| :: x[i][1..] == y[i][1..]
  }

  lemma SameKeys(x: seq<bytes>, y: seq<bytes>)
    requires AllOf(x, 33) && AllOf(y, 33)
    ensures KeyFlows(x) == KeyFlows(y) <==> LikeKeys(x, y)
  {
    hide PagedHex;
    if KeyFlows(x) == KeyFlows(y) {
      hide KeyFlow;
      assert |x| == |KeyFlows(x)| == |y|;
      forall i | 0 <= i < |x|
        ensures x[i][1..] == y[i][1..]
      {
        assert KeyFlows(x)[i] == KeyFlows(y)[i];
        KeyShown(x[i], y[i]);
      }
    }
  }

  /** What was shown is what was hashed: two updates have the same screens if and only if they have the
      same keys, but for the bytes that name the schemes, and the same access structures, hence the same
      version. */
  lemma ShownDetermines(updateType: byte, x: Update, y: Update)
    requires WellFormed(updateType, x) && WellFormed(updateType, y)
    ensures UpdateFlows(updateType, x) == UpdateFlows(updateType, y)
            <==> LikeKeys(x.keys, y.keys) && x.structures == y.structures
    ensures x.structures == y.structures ==> x.prefix == y.prefix
  {
    SameVersion(updateType, x, y);
    SameKeys(x.keys, y.keys);
    if UpdateFlows(updateType, x) == UpdateFlows(updateType, y) {
      SameUpdates(updateType, x, y);
    }
  }

  lemma SameUpdates(updateType: byte, x: Update, y: Update)
    requires WellFormed(updateType, x) && WellFormed(updateType, y)
    requires UpdateFlows(updateType, x) == UpdateFlows(updateType, y)
    ensures KeyFlows(x.keys) == KeyFlows(y.keys) && x.structures == y.structures
  {
    SameVersion(updateType, x, y);
    hide VersionOf, StructureCount, KeyFlows, StructuresFlows, TypeText;
    var review := [[REVIEW, Continue("Update", TypeText(updateType))]];
    var a, b := review + KeyFlows(x.keys), review + KeyFlows(y.keys);
    KeysPlain(updateType, x.keys);
    KeysPlain(updateType, y.keys);
    Last(a + StructuresFlows(x.structures), [Sign, Decline], b + StructuresFlows(y.structures), [Sign, Decline]);
    SameStructures(a, x.structures, b, y.structures);
    assert KeyFlows(x.keys) == a[1..] && KeyFlows(y.keys) == b[1..];
  }

  lemma SameVersion(updateType: byte, x: Update, y: Update)
    requires WellFormed(updateType, x) && WellFormed(updateType, y)
    ensures |x.structures| == |y.structures| ==> x.prefix == y.prefix
    ensures |x.structures| <= 15 && |y.structures| <= 15
  {
    hide Structures;
  }
}
