/**
 * From the mix of operation kinds a caller asks for to the operations a run draws: each kind is
 * drawn in the share its own weight and the harness's weight give it, on every run.
 */
module Mix {
  import opened Prelude
  import opened Rng
  import opened Driver
  import opened Endurance
  import Replay

  /** The kinds of a mix with the weight the caller gave each; kinds without one weigh 1. */
  function PairsOf(h: Harness, mix: KindMix): seq<(Kind, u32)> {
    match mix
    case AllKinds => seq(|h.opKinds|, i requires 0 <= i < |h.opKinds| => (h.opKinds[i], 1))
    case Restricted(kinds) => seq(|kinds|, i requires 0 <= i < |kinds| => (kinds[i], 1))
    case Weighted(pairs) => pairs
  }

  /** The share of a pair: its weight times the harness's, held at the largest 32-bit value. */
  function Share(h: Harness, s: State, pair: (Kind, u32)): nat {
    var product: nat := pair.1 * h.weight(s, pair.0);
    if product < 0x1_0000_0000 then product else 0xFFFF_FFFF
  }

  function Shares(h: Harness, s: State, pairs: seq<(Kind, u32)>): (shares: seq<nat>)
    ensures |shares| == |pairs|
  {
    seq<nat>(|pairs|, i requires 0 <= i < |pairs| => Share(h, s, pairs[i]))
  }

  /** A mix is refused exactly when none of its pairs has weight. */
  lemma MixIsRefusedIff(h: Harness, mix: KindMix, remaining: nat)
    ensures var pairs := PairsOf(h, mix);
            ResolveMix(h, mix, remaining).None? <==> forall i :: 0 <= i < |pairs| ==> pairs[i].1 == 0
  {
    var pairs, statics := PairsOf(h, mix), StaticsOf(h, mix);
    assert |statics| == |pairs| == |KindsOf(h, mix)| && forall i :: 0 <= i < |pairs| ==> statics[i] == pairs[i].1;
  }

  /** The source draws from these pairs, kind by kind and weight by weight. */
  ghost predicate DrawsFrom(source: OpSource, pairs: seq<(Kind, u32)>) {
    && source.Generated? && |source.kinds| == |source.statics| == |pairs| > 0
    && forall i :: 0 <= i < |pairs| ==> source.kinds[i] == pairs[i].0 && source.statics[i] == pairs[i].1
  }

  lemma ResolvedDrawsFromMix(h: Harness, mix: KindMix, remaining: nat)
    requires ResolveMix(h, mix, remaining).Some?
    ensures var source := ResolveMix(h, mix, remaining).value;
            DrawsFrom(source, PairsOf(h, mix)) && source.Valid() && source.remaining == remaining
  {
  }

  /** The pick lies in share `i` when the shares are laid end to end. */
  predicate PickFalls(shares: seq<nat>, i: nat, pick: nat)
    requires i < |shares|
  {
    Sum(shares[..i]) <= pick < Sum(shares[..i]) + shares[i]
  }

  /**
   * The operation was generated from the pair in whose share the pick fell when the shares are laid
   * end to end; that pair has weight on both sides. The generator goes on from there.
   */
  ghost predicate FellTo(h: Harness, pairs: seq<(Kind, u32)>, s: State, rng: Prng, i: nat, op: Op, next: Prng)
    requires Sum(Shares(h, s, pairs)) > 0
  {
    var shares := Shares(h, s, pairs);
    var (pick, stream) := rng.genRange(rng.stream, Sum(shares));
    && i < |pairs| && pairs[i].1 > 0 && h.weight(s, pairs[i].0) > 0
    && PickFalls(shares, i, pick)
    && var (generated, rest) := h.generate(rng.(stream := stream), s, pairs[i].0);
       op == generated && next == rng.(stream := rest)
  }

  ghost predicate DrawnFairly(h: Harness, pairs: seq<(Kind, u32)>, s: State, rng: Prng, op: Op, next: Prng) {
    Sum(Shares(h, s, pairs)) > 0 && exists i: nat :: FellTo(h, pairs, s, rng, i, op, next)
  }

  /** Of the picks that can be drawn, exactly as many fall to a pair as its share says. */
  lemma ShareIsExact(h: Harness, s: State, pairs: seq<(Kind, u32)>, i: nat)
    requires i < |pairs|
    ensures var shares := Shares(h, s, pairs);
            |set p: nat | p < Sum(shares) && PickFalls(shares, i, p)| == shares[i]
  {
    var shares := Shares(h, s, pairs);
    var before := Sum(shares[..i]);
    assert shares == shares[..i] + shares[i..];
    SumAppend(shares[..i], shares[i..]);
    IntervalSize(before, before + shares[i]);
    hide Sum, Shares;
    forall p: nat ensures PickFalls(shares, i, p) <==> p in Interval(before, before + shares[i]) {
    }
    assert (set p: nat | p < Sum(shares) && PickFalls(shares, i, p)) == Interval(before, before + shares[i]);
  }

  /**
   * One draw from a mix: it ends with the budget, it is refused exactly when every share is zero, and
   * otherwise it is fair, and leaves a source for the same mix.
   */
  lemma DrawIsFair(h: Harness, pairs: seq<(Kind, u32)>, source: OpSource, s: State, rng: Prng)
    requires DrawsFrom(source, pairs)
    ensures var d := Next(h, source, s, rng);
            && (d.Exhausted? <==> source.remaining == 0)
            && (d.Undrawable? <==> source.remaining > 0 && Sum(Shares(h, s, pairs)) == 0)
            && (d.Drawn? ==>
                  && DrawnFairly(h, pairs, s, rng, d.op, d.rng)
                  && DrawsFrom(d.source, pairs) && d.source.remaining == source.remaining - 1)
  {
    var weights, shares := Weights(h, s, source.kinds, source.statics), Shares(h, s, pairs);
    assert forall i :: 0 <= i < |pairs| ==>
      weights[i] == SaturatingMul(pairs[i].1, h.weight(s, pairs[i].0)) == Share(h, s, pairs[i]);
    assert weights == shares;
    SumZeroIffAllZero(shares);
    var d := Next(h, source, s, rng);
    if d.Drawn? {
      var pick := rng.genRange(rng.stream, Sum(shares)).0;
      var i := BucketOf(pick, shares);
      BucketIsInterval(pick, shares, 0);
      BucketIsInterval(pick, shares, i);
      assert shares[i] > 0;
      assert FellTo(h, pairs, s, rng, i, d.op, d.rng);
    }
  }

  ghost predicate SomehowDrawn(h: Harness, pairs: seq<(Kind, u32)>, op: Op) {
    exists s: State, rng: Prng, next: Prng :: DrawnFairly(h, pairs, s, rng, op, next)
  }

  ghost predicate AllDrawn(h: Harness, pairs: seq<(Kind, u32)>, history: seq<Op>) {
    forall k :: 0 <= k < |history| ==> SomehowDrawn(h, pairs, history[k])
  }

  lemma {:induction false} DriveDrawsFairly(h: Harness, every: nat, pairs: seq<(Kind, u32)>, p: Progress)
    requires DrawsFrom(p.source, pairs) && AllDrawn(h, pairs, p.history)
    ensures AllDrawn(h, pairs, Drive(h, every, p).history)
    decreases p.source.Size()
  {
    DrawIsFair(h, pairs, p.source, p.state, p.rng);
    hide Step, Next, DrawnFairly;
    var d := Next(h, p.source, p.state, p.rng);
    if d.Drawn? { assert SomehowDrawn(h, pairs, d.op); }
    match Turn(h, every, p)
    case Done(_) =>
    case Continue(q) => DriveDrawsFairly(h, every, pairs, q);
  }

  /** Every operation of a generated run was drawn fairly from the pairs of the mix the caller gave. */
  lemma RunDrawsFromMix(h: Harness, every: nat, mix: KindMix, ops: nat, state: State, rng: Prng)
    requires ResolveMix(h, mix, ops).Some?
    ensures var e := Drive(h, every, Start(h, state, rng, ResolveMix(h, mix, ops).value));
            AllDrawn(h, PairsOf(h, mix), e.history) && |e.history| <= ops
  {
    ResolvedDrawsFromMix(h, mix, ops);
    var p := Start(h, state, rng, ResolveMix(h, mix, ops).value);
    DriveDrawsFairly(h, every, PairsOf(h, mix), p);
    Replay.HistoryGrows(h, every, p);
  }

  lemma {:induction false} EndureDrawsFairly(h: Harness, cfg: EnduranceConfig, pairs: seq<(Kind, u32)>, lap: Lap)
    requires lap.p.source.Valid() && DrawsFrom(lap.p.source, pairs) && AllDrawn(h, pairs, lap.p.history)
    ensures AllDrawn(h, pairs, Endure(h, cfg, lap).lap.p.history)
    decreases lap.p.source.Size()
  {
    DrawIsFair(h, pairs, lap.p.source, lap.p.state, lap.p.rng);
    hide Step, Next, Pace, DrawnFairly;
    var d := Next(h, lap.p.source, lap.p.state, lap.p.rng);
    if d.Drawn? { assert SomehowDrawn(h, pairs, d.op); }
    match LapTurn(h, cfg, lap)
    case Finish(_) =>
    case NextLap(next) => EndureDrawsFairly(h, cfg, pairs, next);
  }

  /** The same for an endurance run. */
  lemma EnduranceDrawsFromMix(h: Harness, cfg: EnduranceConfig, mix: KindMix, state: State, rng: Prng)
    requires ResolveMix(h, mix, cfg.Remaining()).Some?
    ensures var lap := FirstLap(h, state, rng, ResolveMix(h, mix, cfg.Remaining()).value);
            AllDrawn(h, PairsOf(h, mix), Endure(h, cfg, lap).lap.p.history)
  {
    ResolvedDrawsFromMix(h, mix, cfg.Remaining());
    EndureDrawsFairly(h, cfg, PairsOf(h, mix), FirstLap(h, state, rng, ResolveMix(h, mix, cfg.Remaining()).value));
  }
}
