/** The screens of a scheduled transfer determine what is signed, as far as it is shown. */
module ScheduleShown {
  import opened Bytes
  import opened Lists
  import opened Device
  import opened NumberHelpers
  import opened Displays
  import opened ScheduleTx
  import opened DisplayCbor
  import opened Readback
  import opened Runs
  import opened Screens
  import ScheduleRuns
  import Time
  import TimeText

  lemma ReleaseShown(a: bytes, b: bytes, x: bool, y: bool)
    requires |a| == |b| == 16 && Accepted(a) && Accepted(b)
    ensures PairFlow(a, x) == PairFlow(b, y) <==> SameRelease(a, b) && x == y
  {
    TimeText.ShowableYear(Seconds(a));
    TimeText.ShowableYear(Seconds(b));
    hide Seconds, Time.TmOf, TimeText.TextOf, TimeText.Printable, AmountText, U8BE;
    if PairFlow(a, x) == PairFlow(b, y) {
      assert PairFlow(a, x)[0] == PairFlow(b, y)[0] && PairFlow(a, x)[1] == PairFlow(b, y)[1];
      TimeText.TextInjective(Seconds(a), Seconds(b));
      AmountRoundTrip(U8BE(a, 8));
      AmountRoundTrip(U8BE(b, 8));
      assert x == (|PairFlow(a, x)| == 4) && y == (|PairFlow(b, y)| == 4);
    }
  }

  /** The second and the amount, which are shown. */
  ghost predicate SameRelease(a: bytes, b: bytes)
    requires |a| == |b| == 16
  {
    Seconds(a) == Seconds(b) && U8BE(a, 8) == U8BE(b, 8)
  }

  ghost predicate SameReleases(a: seq<bytes>, b: seq<bytes>)
    requires AllOf(a, 16) && AllOf(b, 16)
  {
    |a| == |b| && forall i | 0 <= i < |a| :: SameRelease(a[i], b[i])
  }

  lemma ReleasesShown(a: seq<bytes>, b: seq<bytes>)
    requires Releases(a) && Releases(b) && |a| <= 255 && |b| <= 255
    ensures AllOf(a, 16) && AllOf(b, 16)
    ensures PairFlows(a, |a|) == PairFlows(b, |b|) <==> SameReleases(a, b)
  {
    hide Accepted, PairFlow, SameRelease;
    var n, m := |a|, |b|;
    var x, y := PairFlows(a, n), PairFlows(b, m);
    assert |x| == n && |y| == m;
    forall i | 0 <= i < n && n == m
      ensures x[i] == y[i] <==> SameRelease(a[i], b[i])
    {
      ReleaseShown(a[i], b[i], i + 1 == n, i + 1 == m);
    }
  }

  lemma StartShown(v: View, w: View, p: Progress, q: Progress)
    requires v.sha == w.sha && HeadOk(p) && HeadOk(q)
    requires p.memo.Some? <==> q.memo.Some?
    ensures InitialFlow(v, p) == InitialFlow(w, q) <==>
      && p.header[..32] == q.header[..32] && p.to == q.to
      && (p.memo.Some? ==> MemoText(v.stale, p.memo.value.memo) == MemoText(w.stale, q.memo.value.memo))
  {
    hide AddressChars, MemoText;
    var f, g := InitialFlow(v, p), InitialFlow(w, q);
    if f == g {
      assert f[1] == g[1] && f[2] == g[2] && f[3] == g[3];
      AddressCharsInjective(v.sha, p.header[..32], q.header[..32]);
      AddressCharsInjective(v.sha, p.to, q.to);
    }
  }

  /** Two scheduled transfers have the same screens if and only if sender, recipient and memo step are the
      same, and as many releases with the same seconds and amounts in the same order.  Memos that are shown
      exactly are then the same. */
  lemma ShownDetermines(v: View, w: View, p: Progress, q: Progress)
    requires v.sha == w.sha
    requires ProgressOk(p) && ProgressOk(q) && p.stage.Done? && q.stage.Done? && p.withMemo == q.withMemo
    ensures |p.header| == |q.header| == 61 && p.memo.Some? == q.memo.Some? == p.withMemo
    ensures AllOf(p.pairs, 16) && AllOf(q.pairs, 16)
    ensures Rendered(v, p) == Rendered(w, q) <==>
      && p.header[..32] == q.header[..32] && p.to == q.to && SameReleases(p.pairs, q.pairs)
      && (p.withMemo ==> MemoText(v.stale, p.memo.value.memo) == MemoText(w.stale, q.memo.value.memo))
    ensures Rendered(v, p) == Rendered(w, q) && p.withMemo ==>
      var m, n := p.memo.value.memo, q.memo.value.memo;
      MemoText(v.stale, m) == m.copied && MemoText(w.stale, n) == n.copied ==> m.copied == n.copied
  {
    SignedSchedule(v, p);
    SignedSchedule(w, q);
    ScheduleRuns.DoneSerializes(p.withMemo, p);
    ScheduleRuns.DoneSerializes(q.withMemo, q);
    StartShown(v, w, p, q);
    ReleasesShown(p.pairs, q.pairs);
    var f, g := InitialFlow(v, p), InitialFlow(w, q);
    var x, y := PairFlows(p.pairs, |p.pairs|), PairFlows(q.pairs, |q.pairs|);
    hide ProgressOk, Rendered, PairFlow, SameReleases, BatchesOk, DisplayCbor.Received, Accepted, AddressChars,
        MemoText,
        InitialFlow, PairFlows;
    if Rendered(v, p) == Rendered(w, q) {
      Split([f], [g], x, y);
      assert f == [f][0] == [g][0] == g;
    }
  }

  // ------------------------------------------------------------------ what the screens say of the signed bytes

  /** The i-th of the last n groups of sixteen bytes. */
  ghost function Release(b: bytes, n: nat, i: nat): (r: bytes)
    requires i < n && 16 * n <= |b|
    ensures |r| == 16
  {
    b[|b| - 16 * (n - i)..|b| - 16 * (n - i) + 16]
  }

  /** The screens show the releases at the end, in order, and the last of them offers to sign. */
  ghost predicate AllRead(flows: seq<Flow>, b: bytes)
    requires 16 * |flows| <= |b|
  {
    forall i | 0 <= i < |flows| :: ShowsRelease(flows[i], Release(b, |flows|, i), i == |flows| - 1)
  }

  /** Sender and recipient, which stand in front; then the releases, of which there are as many as the byte
      before them says. */
  ghost predicate Shows(sha: Sha256, withMemo: bool, memo: seq<Step>, flows: seq<Flow>, b: bytes) {
    var n := |flows| - 1;
    && 1 <= n <= 255 && |b| >= 94 + 16 * n && b[60] == (if withMemo then 24 else 19) && b[|b| - 16 * n - 1] == n
    && ShowsParties(sha, flows[0], b[..32], b[61..93], memo)
    && AllRead(flows[1..], b)
  }

  lemma PartiesShown(sha: Sha256, header: bytes, to: bytes, memo: seq<Step>)
    requires |header| == 61 && |to| == 32
    ensures ShowsParties(sha, StartFlow(sha, header, to, memo), header[..32], to, memo)
  {
    hide AddressChars, ShowsAddress;
    AddressShown(sha, header[..32]);
    AddressShown(sha, to);
    PartySteps(AddressChars(sha, header[..32]), AddressChars(sha, to), memo);
  }

  lemma PartySteps(sender: string, to: string, memo: seq<Step>)
    ensures var flow := Introduction(sender, to, memo);
            && flow[0] == Show("Review", "transaction") && flow[1] == Show("Sender", sender)
            && flow[2] == Show("Recipient", to) && flow[3..] == memo + [Continue("Continue", "with transaction")]
  {
  }

  lemma ReleasesRead(pairs: seq<bytes>, before: bytes)
    requires Releases(pairs) && 1 <= |pairs| <= 255
    ensures AllOf(pairs, 16) && |Flat(pairs)| == 16 * |pairs|
    ensures AllRead(PairFlows(pairs, |pairs|), before + Flat(pairs))
  {
    hide Flat, ShowsRelease, PairFlow, Accepted, Release;
    var b, n := before + Flat(pairs), |pairs|;
    FlatLength(pairs, 16);
    forall i | 0 <= i < n
      ensures ShowsRelease(PairFlows(pairs, n)[i], Release(b, n, i), i == n - 1)
    {
      ReleaseRead(pairs, before, i);
    }
  }

  lemma ReleaseRead(pairs: seq<bytes>, before: bytes, i: nat)
    requires Releases(pairs) && i < |pairs| <= 255
    ensures var b, n := before + Flat(pairs), |pairs|;
            && AllOf(pairs, 16) && |b| == |before| + 16 * n && Release(b, n, i) == pairs[i]
            && ShowsRelease(PairFlows(pairs, n)[i], pairs[i], i == n - 1)
  {
    hide Flat, ShowsRelease, PairFlow, Accepted;
    FlatItem(pairs, i);
    FlatLength(pairs, 16);
    FlatLength(pairs[..i], 16);
    assert Release(before + Flat(pairs), |pairs|, i) == Flat(pairs)[i * 16..i * 16 + 16];
    ReleaseShows(pairs[i], i == |pairs| - 1);
  }

  lemma HeadParts(header: bytes, to: bytes, memo: bytes, n: byte, pairs: bytes)
    requires |header| == 61 && |to| == 32
    ensures var b := header + to + memo + [n] + pairs;
            && b[..32] == header[..32] && b[60] == header[60] && b[61..93] == to && b[|b| - |pairs| - 1] == n
  {
  }

  /** Whatever packets and presses led to the sign screen: the screens say what the signed bytes are. */
  lemma SignedShows(view: View, withMemo: bool, events: seq<Event>, b: bytes)
    requires ScheduleRuns.Reached(withMemo, events, b)
    ensures var p := Run(ScheduleRuns.Take, Begin(withMemo), events).value;
            && ProgressOk(p) && HeadOk(p)
            && Shows(view.sha, withMemo, MemoStep(view.stale, p.memo), Rendered(view, p), b)
  {
    hide ProgressOk, HeadOk, Rendered, Run, Gathered, ScheduleRuns.Take, ScheduleRuns.Serializes, Shows, MemoText;
    ScheduleRuns.SignedIsSchedule(withMemo, events, b);
    SerializedKind(withMemo, Run(ScheduleRuns.Take, Begin(withMemo), events).value, b);
    DoneShows(view, Run(ScheduleRuns.Take, Begin(withMemo), events).value, b);
  }

  lemma SerializedKind(withMemo: bool, p: Progress, b: bytes)
    requires ScheduleRuns.Serializes(withMemo, p, b)
    ensures p.withMemo == withMemo
  {
  }

  lemma DoneShows(view: View, p: Progress, b: bytes)
    requires ProgressOk(p) && p.stage.Done? && ScheduleRuns.Serializes(p.withMemo, p, b)
    ensures HeadOk(p) && Shows(view.sha, p.withMemo, MemoStep(view.stale, p.memo), Rendered(view, p), b)
  {
    SignedSchedule(view, p);
    hide ProgressOk, Rendered, Flat, PairFlows, AllRead, ShowsParties, StartFlow, Releases, MemoBytes, MemoStep,
        DisplayCbor.Received, Shows, Release, ShowsRelease;
    var memo, before := MemoStep(view.stale, p.memo), p.header + p.to + MemoBytes(p) + [p.n];
    var intro, flows := StartFlow(view.sha, p.header, p.to, memo), PairFlows(p.pairs, |p.pairs|);
    HeadParts(p.header, p.to, MemoBytes(p), p.n, Flat(p.pairs));
    PartiesShown(view.sha, p.header, p.to, memo);
    ReleasesRead(p.pairs, before);
    Together(view.sha, p.withMemo, memo, intro, flows, b);
  }

  lemma Together(sha: Sha256, withMemo: bool, memo: seq<Step>, intro: Flow, flows: seq<Flow>, b: bytes)
    requires var n := |flows|; 1 <= n <= 255 && |b| >= 94 + 16 * n && b[|b| - 16 * n - 1] == n && AllRead(flows, b)
    requires b[60] == (if withMemo then 24 else 19) && ShowsParties(sha, intro, b[..32], b[61..93], memo)
    ensures Shows(sha, withMemo, memo, [intro] + flows, b)
  {
    hide ShowsParties, ShowsRelease, Release;
    assert ([intro] + flows)[1..] == flows;
  }
}
