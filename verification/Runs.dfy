/** Runs of a protocol: a list of events, each taken in the state that the ones before it have led to. */
module Runs {
  import opened Bytes
  import opened Lists
  import opened Device

  /** The state after all events, when none of them is refused. */
  function Run<P, E>(take: (P, E) -> Outcome<P>, p: P, events: seq<E>): (r: Outcome<P>) {
    if events == [] then Ok(p)
    else
      var q :- Run(take, p, events[..|events| - 1]);
      take(q, events[|events| - 1])
  }

  /** All that the events of a run add to the hash. */
  function Gathered<P, E>(take: (P, E) -> Outcome<P>, hashed: (P, E) -> bytes, p: P, events: seq<E>): (r: bytes)
    requires Run(take, p, events).Ok?
  {
    if events == [] then []
    else
      var before := events[..|events| - 1];
      Gathered(take, hashed, p, before) + hashed(Run(take, p, before).value, events[|events| - 1])
  }

  lemma {:induction false} RunAppend<P, E>(take: (P, E) -> Outcome<P>, p: P, xs: seq<E>, ys: seq<E>)
    requires Run(take, p, xs).Ok?
    ensures Run(take, p, xs + ys) == Run(take, Run(take, p, xs).value, ys)
  {
    if ys == [] {
      assert xs + ys == xs;
    } else {
      var n := |ys| - 1;
      RunAppend(take, p, xs, ys[..n]);
      assert (xs + ys)[..|xs| + n] == xs + ys[..n];
    }
  }

  lemma One<P, E>(take: (P, E) -> Outcome<P>, p: P, e: E)
    ensures Run(take, p, [e]) == take(p, e)
  {
    assert [e][..0] == [];
    assert Run(take, p, []) == Ok(p);
  }

  lemma Both<P, E>(take: (P, E) -> Outcome<P>, p: P, xs: seq<E>, q: P, ys: seq<E>, r: P)
    requires Run(take, p, xs) == Ok(q) && Run(take, q, ys) == Ok(r)
    ensures Run(take, p, xs + ys) == Ok(r)
  {
    RunAppend(take, p, xs, ys);
  }

  /** An accepted event keeps what has been received well formed and extends the transcript by exactly
      what it adds to the hash. */
  ghost predicate Sound<P(!new), E(!new)>(
    take: (P, E) -> Outcome<P>, hashed: (P, E) -> bytes, ok: P -> bool, transcript: P -> bytes)
  {
    forall p, e :: ok(p) && take(p, e).Ok? ==>
      ok(take(p, e).value) && transcript(take(p, e).value) == transcript(p) + hashed(p, e)
  }

  /** Then so do whole runs. */
  lemma {:induction false} RunSound<P(!new), E(!new)>(
    take: (P, E) -> Outcome<P>, hashed: (P, E) -> bytes, ok: P -> bool, transcript: P -> bytes, p: P, events: seq<E>)
    requires Sound(take, hashed, ok, transcript) && ok(p) && Run(take, p, events).Ok?
    ensures var q := Run(take, p, events).value;
            ok(q) && transcript(q) == transcript(p) + Gathered(take, hashed, p, events)
  {
    if events != [] {
      var before, e := events[..|events| - 1], events[|events| - 1];
      RunSound(take, hashed, ok, transcript, p, before);
      var q := Run(take, p, before).value;
      assert take(q, e).Ok?;
      Regroup(transcript(p), Gathered(take, hashed, p, before), hashed(q, e));
    } else {
      assert transcript(p) + [] == transcript(p);
    }
  }

  /** The outcome of a protocol as one of a larger protocol. */
  function Lift<P, Q>(up: P -> Q, r: Outcome<P>): (s: Outcome<Q>) {
    match r case Ok(p) => Ok(up(p)) case Throw(e) => Throw(e)
  }

  /** Runs of a protocol inside a larger one. */
  lemma {:induction false} RunWithin<P(!new), Q(!new), E(!new)>(
    take: (P, E) -> Outcome<P>, hashed: (P, E) -> bytes, up: P -> Q,
    takeAll: (Q, E) -> Outcome<Q>, hashedAll: (Q, E) -> bytes, p: P, events: seq<E>)
    requires forall p, e :: takeAll(up(p), e) == Lift(up, take(p, e))
    requires forall p, e :: hashedAll(up(p), e) == hashed(p, e)
    ensures Run(takeAll, up(p), events) == Lift(up, Run(take, p, events))
    ensures Run(take, p, events).Ok? ==>
      Gathered(takeAll, hashedAll, up(p), events) == Gathered(take, hashed, p, events)
  {
    if events != [] {
      RunWithin(take, hashed, up, takeAll, hashedAll, p, events[..|events| - 1]);
    }
  }
}
