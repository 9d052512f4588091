/**
 * The AFE daughter-board module fixture (`afe_dbs`): detecting and
 * correcting swapped dual ADCs at boot, and converging each channel's
 * offset DAC on its baseline target.
 *
 * Baselines are inputs, one per channel for each analysis the source runs
 * (the `channel_baseline` of each channel is reduced to its value). FIPPI
 * register writes and DAC writes are recorded in fields instead of being
 * sent to the hardware. Setting the channel voltage offsets before and
 * after each analysis, and the waits, are not modelled.
 */
module AfeDbs {
  import opened Errors
  import Acc = Accumulators
  import BL = Baseline
  import opened Fixture

  /** `afe_dbs::max_dbs`. */
  const MaxDbs: nat := 4

  /** Constants of `adjust_offsets`. */
  const DacSlopeLearnSteps: int := 200
  const LinearFitSamples: nat := 2
  const Runs: nat := 10

  // ---------------------------------------------------------------------
  // ADC swap detection
  // ---------------------------------------------------------------------

  /**
   * The swap test of `boot`: an even channel is swapped when moving the even
   * channels' offset did not change its baseline at all; an odd channel when
   * its baseline moved beyond the default tolerance.
   */
  function SwapDecision(chan: nat, same: int, moved: int, adcBits: nat): bool
  {
    if chan % 2 == 0 then same == moved
    else !BL.Within(same, moved, BL.Range(adcBits, BL.DefaultNoisePercent))
  }

  /** The default tolerance is the ADC range divided by 200, rounded down. */
  lemma DefaultRange(adcBits: nat)
    ensures BL.Range(adcBits, BL.DefaultNoisePercent) == BL.Pow2(adcBits) / 200
  {
    var p := BL.Pow2(adcBits);
    var q, m := p / 200, p % 200;
    var x := p as real * (BL.DefaultNoisePercent / 100.0);
    assert p == 200 * q + m && 0 <= m < 200;
    assert x == q as real + m as real / 200.0;
    assert q as real <= x < q as real + 1.0;
    assert x.Floor == q;
  }

  /**
   * The swap decision in terms of the baselines: even channels need exact
   * equality, odd channels a difference of more than `2^adcBits / 200`.
   */
  lemma SwapDecisionMeaning(chan: nat, same: int, moved: int, adcBits: nat)
    ensures chan % 2 == 0 ==> (SwapDecision(chan, same, moved, adcBits) <==> same == moved)
    ensures chan % 2 == 1 ==>
      (SwapDecision(chan, same, moved, adcBits) <==>
        (same - moved > BL.Pow2(adcBits) / 200 || moved - same > BL.Pow2(adcBits) / 200))
  {
    DefaultRange(adcBits);
  }

  /** The swap decision of every channel, in channel order. */
  function Decisions(chans: seq<ChannelFixture>, same: seq<int>, moved: seq<int>): (r: seq<bool>)
    requires |chans| == |same| == |moved|
    ensures |r| == |chans|
    ensures forall i :: 0 <= i < |chans| ==> r[i] == SwapDecision(i, same[i], moved[i], chans[i].adcBits)
  {
    seq(|chans|, i requires 0 <= i < |chans| => SwapDecision(i, same[i], moved[i], chans[i].adcBits))
  }

  /**
   * An `adcctrl` word is represented by the set of its bit positions:
   * `word |= 1 << k` adds `k`, and the word changed exactly when `k` was
   * not already in it. The position of a channel at `offset` on its board
   * is `offset / 2`: the two ADCs of a pair share one bit.
   */
  type Word = set<nat>

  function SwapBit(offset: int): nat
    requires 0 <= offset
  {
    offset / 2
  }

  /** The DB04 channels' board number indexes `adcctrl` and their bit lies within a 32-bit word. */
  predicate WellPlaced(c: ChannelFixture)
  {
    c.IsDb04() ==> 0 <= c.dbNumber && 0 <= c.dbOffset < 64
  }

  /** What the swap loop of `boot` leaves: `adcctrl`, the FIPPI writes, the outcome and where it stopped. */
  datatype SwapOut = SwapOut(ctrl: seq<Word>, writes: seq<(nat, Word)>, status: Outcome, stop: nat)

  /**
   * The swap loop of `boot` from channel `i` on: each channel records its
   * decision in its fixture (a default fixture throws `internal_failure`),
   * and a swapped channel ORs its bit into its board's `adcctrl` word, which
   * is written to the FIPPI only when it changed. A board number of 4 or
   * more throws `module_initialize_failure`.
   */
  function SwapFrom(ctrl: seq<Word>, writes: seq<(nat, Word)>, chans: seq<ChannelFixture>,
                    swapped: seq<bool>, i: nat): (r: SwapOut)
    requires |ctrl| == MaxDbs && i <= |chans| == |swapped|
    requires forall j :: 0 <= j < |chans| ==> WellPlaced(chans[j])
    ensures |r.ctrl| == MaxDbs && i <= r.stop <= |chans|
    ensures r.status.Pass? ==> r.stop == |chans|
    decreases |chans| - i
  {
    if i == |chans| then SwapOut(ctrl, writes, Pass, i)
    else
      var c := chans[i];
      if !c.IsDb04() then SwapOut(ctrl, writes, Fail(InternalFailure), i)
      else if !swapped[i] then SwapFrom(ctrl, writes, chans, swapped, i + 1)
      else if c.dbNumber >= MaxDbs then SwapOut(ctrl, writes, Fail(ModuleInitializeFailure), i)
      else
        assert WellPlaced(chans[i]);
        var d := c.dbNumber;
        var word := ctrl[d] + {SwapBit(c.dbOffset)};
        SwapFrom(ctrl[d := word], if word != ctrl[d] then writes + [(d, word)] else writes,
                 chans, swapped, i + 1)
  }

  /** The bits the swapped DB04 channels from `i` on have on board `d`. */
  function SwapBits(chans: seq<ChannelFixture>, swapped: seq<bool>, i: nat, d: int): (r: Word)
    requires i <= |chans| == |swapped|
    requires forall j :: 0 <= j < |chans| ==> WellPlaced(chans[j])
    ensures forall k :: k in r <==>
      exists j :: i <= j < |chans| && swapped[j] && chans[j].IsDb04() && chans[j].dbNumber == d
                  && 0 <= chans[j].dbOffset && k == SwapBit(chans[j].dbOffset)
    decreases |chans| - i
  {
    if i == |chans| then {}
    else
      var c := chans[i];
      assert WellPlaced(c);
      var rest := SwapBits(chans, swapped, i + 1, d);
      if swapped[i] && c.IsDb04() && c.dbNumber == d then {SwapBit(c.dbOffset)} + rest else rest
  }

  /** The swap loop's step at a DB04 channel `i`, unfolded. */
  lemma SwapFromStep(ctrl: seq<Word>, writes: seq<(nat, Word)>, chans: seq<ChannelFixture>,
                     swapped: seq<bool>, i: nat)
    requires |ctrl| == MaxDbs && i < |chans| == |swapped|
    requires forall j :: 0 <= j < |chans| ==> WellPlaced(chans[j])
    requires SwapFrom(ctrl, writes, chans, swapped, i).status.Pass?
    ensures chans[i].IsDb04()
    ensures swapped[i] ==>
      0 <= chans[i].dbNumber < MaxDbs && 0 <= chans[i].dbOffset &&
      var b := chans[i].dbNumber;
      var word := ctrl[b] + {SwapBit(chans[i].dbOffset)};
      SwapFrom(ctrl, writes, chans, swapped, i) ==
        SwapFrom(ctrl[b := word], if word != ctrl[b] then writes + [(b, word)] else writes, chans, swapped, i + 1)
    ensures !swapped[i] ==> SwapFrom(ctrl, writes, chans, swapped, i) == SwapFrom(ctrl, writes, chans, swapped, i + 1)
  {
    assert WellPlaced(chans[i]);
  }

  /**
   * When the swap loop completes, each board's `adcctrl` word is its old
   * word with exactly the bits of that board's swapped channels added.
   */
  lemma {:induction false} SwapCtrlClosedForm(ctrl: seq<Word>, writes: seq<(nat, Word)>, chans: seq<ChannelFixture>,
                                              swapped: seq<bool>, i: nat, d: nat)
    requires |ctrl| == MaxDbs && i <= |chans| == |swapped| && d < MaxDbs
    requires forall j :: 0 <= j < |chans| ==> WellPlaced(chans[j])
    requires SwapFrom(ctrl, writes, chans, swapped, i).status.Pass?
    ensures SwapFrom(ctrl, writes, chans, swapped, i).ctrl[d] == ctrl[d] + SwapBits(chans, swapped, i, d)
    decreases |chans| - i
  {
    if i < |chans| {
      SwapFromStep(ctrl, writes, chans, swapped, i);
      var rest := SwapBits(chans, swapped, i + 1, d);
      if !swapped[i] {
        SwapCtrlClosedForm(ctrl, writes, chans, swapped, i + 1, d);
        assert SwapBits(chans, swapped, i, d) == rest;
      } else {
        var b := chans[i].dbNumber;
        var word := ctrl[b] + {SwapBit(chans[i].dbOffset)};
        var ctrl1 := ctrl[b := word];
        SwapCtrlClosedForm(ctrl1, if word != ctrl[b] then writes + [(b, word)] else writes, chans, swapped, i + 1, d);
        if b == d {
          assert SwapBits(chans, swapped, i, d) == {SwapBit(chans[i].dbOffset)} + rest;
        } else {
          assert SwapBits(chans, swapped, i, d) == rest;
        }
      }
    }
  }

  /**
   * A second pass with the same decisions over words that already hold
   * every swapped channel's bit changes nothing and writes nothing to the
   * FIPPI.
   */
  lemma {:induction false} SwapIdempotent(ctrl: seq<Word>, chans: seq<ChannelFixture>, swapped: seq<bool>, i: nat)
    requires |ctrl| == MaxDbs && i <= |chans| == |swapped|
    requires forall j :: 0 <= j < |chans| ==> WellPlaced(chans[j])
    requires forall d :: 0 <= d < MaxDbs ==> SwapBits(chans, swapped, i, d) <= ctrl[d]
    requires SwapFrom(ctrl, [], chans, swapped, i).status.Pass?
    ensures SwapFrom(ctrl, [], chans, swapped, i).ctrl == ctrl
    ensures SwapFrom(ctrl, [], chans, swapped, i).writes == []
    decreases |chans| - i
  {
    if i < |chans| {
      SwapFromStep(ctrl, [], chans, swapped, i);
      forall d | 0 <= d < MaxDbs
        ensures SwapBits(chans, swapped, i + 1, d) <= ctrl[d]
      {
        assert SwapBits(chans, swapped, i + 1, d) <= SwapBits(chans, swapped, i, d);
      }
      if swapped[i] {
        var b := chans[i].dbNumber;
        assert SwapBit(chans[i].dbOffset) in SwapBits(chans, swapped, i, b);
        assert ctrl[b] + {SwapBit(chans[i].dbOffset)} == ctrl[b];
        assert ctrl[b := ctrl[b]] == ctrl;
      }
      SwapIdempotent(ctrl, chans, swapped, i + 1);
    }
  }

  /** Running the swap loop twice with the same decisions: the second run leaves `adcctrl` as it is and writes nothing. */
  lemma SwapTwice(ctrl: seq<Word>, chans: seq<ChannelFixture>, swapped: seq<bool>)
    requires |ctrl| == MaxDbs && |chans| == |swapped|
    requires forall j :: 0 <= j < |chans| ==> WellPlaced(chans[j])
    requires SwapFrom(ctrl, [], chans, swapped, 0).status.Pass?
    ensures var first := SwapFrom(ctrl, [], chans, swapped, 0).ctrl;
      SwapFrom(first, [], chans, swapped, 0) == SwapFrom(ctrl, [], chans, swapped, 0).(writes := [])
  {
    var first := SwapFrom(ctrl, [], chans, swapped, 0).ctrl;
    forall d | 0 <= d < MaxDbs
      ensures SwapBits(chans, swapped, 0, d) <= first[d]
    {
      SwapCtrlClosedForm(ctrl, [], chans, swapped, 0, d);
    }
    SwapPassIsStatusFree(ctrl, first, [], chans, swapped, 0);
    SwapIdempotent(first, chans, swapped, 0);
  }

  /** Whether the swap loop completes does not depend on the words it starts from. */
  lemma {:induction false} SwapPassIsStatusFree(ctrl: seq<Word>, other: seq<Word>, writes: seq<(nat, Word)>,
                                                chans: seq<ChannelFixture>, swapped: seq<bool>, i: nat)
    requires |ctrl| == MaxDbs == |other| && i <= |chans| == |swapped|
    requires forall j :: 0 <= j < |chans| ==> WellPlaced(chans[j])
    ensures SwapFrom(ctrl, writes, chans, swapped, i).status == SwapFrom(other, [], chans, swapped, i).status
    ensures SwapFrom(ctrl, writes, chans, swapped, i).stop == SwapFrom(other, [], chans, swapped, i).stop
    decreases |chans| - i
  {
    if i < |chans| && chans[i].IsDb04() && (!swapped[i] || chans[i].dbNumber < MaxDbs) {
      assert WellPlaced(chans[i]);
      if swapped[i] {
        var b := chans[i].dbNumber;
        var k := SwapBit(chans[i].dbOffset);
        var w1 := if ctrl[b] + {k} != ctrl[b] then writes + [(b, ctrl[b] + {k})] else writes;
        var w2: seq<(nat, Word)> := if other[b] + {k} != other[b] then [] + [(b, other[b] + {k})] else [];
        SwapPassIsStatusFree(ctrl[b := ctrl[b] + {k}], other[b := other[b] + {k}], w1, chans, swapped, i + 1);
        SwapPassIsStatusFree(other[b := other[b] + {k}], other[b := other[b] + {k}], w2, chans, swapped, i + 1);
      } else {
        SwapPassIsStatusFree(ctrl, other, writes, chans, swapped, i + 1);
      }
    }
  }

  /** The channels whose verify baseline still passes the swap test: `boot` then fails. */
  predicate VerifyFails(chans: seq<ChannelFixture>, same: seq<int>, verify: seq<int>)
    requires |chans| == |same| == |verify|
  {
    exists i :: 0 <= i < |chans| && SwapDecision(i, same[i], verify[i], chans[i].adcBits)
  }

  /**
   * The verify loop of `boot`: after the swap was corrected, no channel may
   * still look swapped against its first baseline.
   */
  method VerifySwap(chans: seq<ChannelFixture>, same: seq<int>, verify: seq<int>) returns (failed: bool)
    requires |chans| == |same| == |verify|
    ensures failed <==> VerifyFails(chans, same, verify)
  {
    failed := false;
    var chan := 0;
    while chan < |chans|
      invariant 0 <= chan <= |chans|
      invariant failed <==> exists i :: 0 <= i < chan && SwapDecision(i, same[i], verify[i], chans[i].adcBits)
    {
      if chan % 2 == 0 {
        if same[chan] == verify[chan] {
          failed := true;
        }
      } else {
        if !BL.Within(same[chan], verify[chan], BL.Range(chans[chan].adcBits, BL.DefaultNoisePercent)) {
          failed := true;
        }
      }
      chan := chan + 1;
    }
  }

  // ---------------------------------------------------------------------
  // Offset DAC convergence
  // ---------------------------------------------------------------------

  /** The ADC code a channel aims for: `baseline_percent` of the ADC range, truncated. */
  function Target(adcBits: nat, percent: real): int
  {
    Acc.Trunc(BL.Pow2(adcBits) as real * (percent / 100.0))
  }

  /** Every channel's target, computed once: it is the same in every pass. */
  function Targets(chans: seq<ChannelFixture>, percents: seq<real>): (r: seq<int>)
    requires |chans| == |percents|
    ensures |r| == |chans| && forall c :: 0 <= c < |chans| ==> r[c] == Target(chans[c].adcBits, percents[c])
  {
    seq(|chans|, c requires 0 <= c < |chans| => Target(chans[c].adcBits, percents[c]))
  }

  /** `bl != adc_target`: the baseline is outside the default tolerance of the target. */
  predicate OutOfTolerance(bl: int, target: int, adcBits: nat)
  {
    !BL.Within(bl, target, BL.Range(adcBits, BL.DefaultNoisePercent))
  }

  /**
   * The DAC value for the next reading: a fixed learning step away from the
   * target for the first sample, the fitted line at the target afterwards.
   * `fit` already holds the new (baseline, DAC) sample.
   */
  function NextDac(fit: seq<(int, int)>, dac: int, bl: int, target: int): int
    requires |fit| < LinearFitSamples || Acc.DivisorR(fit) != 0.0
  {
    if |fit| < LinearFitSamples then
      (if target > bl then dac - DacSlopeLearnSteps else dac + DacSlopeLearnSteps)
    else
      Acc.LineAt(Acc.FitK(fit), Acc.FitC(fit), target)
  }


  /** The working state of `adjust_offsets`: `offsetdacs`, the fits' samples and the DAC writes. */
  datatype Adjust = Adjust(dacs: seq<int>, fits: seq<seq<(int, int)>>, writes: seq<DacWrite>)

  /** How a step, a pass or the whole loop ended. */
  datatype Status =
    | Running
    | Failed(code: Code)
      /** the fit's divisor is zero: the source divides by zero and converts the result to `int` */
    | DivideByZero

  /** A step's new state, whether it updated the DAC, how it ended and the DAC write it made, if any. */
  datatype StepOut = StepOut(st: Adjust, updated: bool, status: Status, written: seq<DacWrite>)

  predicate Shaped(st: Adjust, n: nat)
  {
    |st.dacs| == n && |st.fits| == n
  }

  /** What a channel's step does to its DAC: nothing, divide by zero, or move it to `dac` with `fit` as its samples. */
  datatype Move = Keep | Singular | MoveTo(dac: int, fit: seq<(int, int)>)

  /**
   * The DAC decision for one channel in one pass: a channel with an offset
   * DAC whose baseline `bl` is out of tolerance of its target gets a new
   * sample and a new DAC value.
   */
  function ChannelMove(st: Adjust, c: ChannelFixture, chan: nat, has: bool, target: int, bl: int): Move
    requires chan < |st.dacs| == |st.fits|
  {
    if !has then Keep
    else
      if !OutOfTolerance(bl, target, c.adcBits) then Keep
      else
        var fit := st.fits[chan] + [(bl, st.dacs[chan])];
        if |fit| >= LinearFitSamples && Acc.DivisorR(fit) == 0.0 then Singular
        else MoveTo(NextDac(fit, st.dacs[chan], bl, target), fit)
  }

  /** One channel in one pass of `adjust_offsets`: the move, then `set_dac` with the new value. */
  function ChannelStep(st: Adjust, c: ChannelFixture, chan: nat, has: bool, target: int, bl: int): (r: StepOut)
    requires chan < |st.dacs| == |st.fits|
    ensures Shaped(r.st, |st.dacs|) && r.st.writes == st.writes + r.written
  {
    match ChannelMove(st, c, chan, has, target, bl)
    case Keep => StepOut(st, false, Running, [])
    case Singular => StepOut(st, true, DivideByZero, [])
    case MoveTo(dac, fit) =>
      var st1 := st.(dacs := st.dacs[chan := dac], fits := st.fits[chan := fit]);
      match c.SetDac(ToValueType(dac))
      case Err(e) => StepOut(st1, true, Failed(e), [])
      case Ok(w) => StepOut(st1.(writes := st1.writes + [w]), true, Running, [w])
  }

  /** What a pass over the channels leaves: the state, `run_again` and how it ended. */
  datatype PassOut = PassOut(st: Adjust, again: bool, status: Status)

  /** The channel loop of one pass, from channel `chan` on. */
  function PassFrom(st: Adjust, chans: seq<ChannelFixture>, has: seq<bool>, targets: seq<int>,
                    bls: seq<int>, chan: nat, again: bool): (r: PassOut)
    requires chan <= |chans| && Shaped(st, |chans|)
    requires |has| == |targets| == |bls| == |chans|
    ensures Shaped(r.st, |chans|)
    decreases |chans| - chan
  {
    if chan == |chans| then PassOut(st, again, Running)
    else
      var s := ChannelStep(st, chans[chan], chan, has[chan], targets[chan], bls[chan]);
      if s.status != Running then PassOut(s.st, again || s.updated, s.status)
      else PassFrom(s.st, chans, has, targets, bls, chan + 1, again || s.updated)
  }

  /** What the pass loop leaves: the state, the passes run, the last `run_again` and how it ended. */
  datatype RunsOut = RunsOut(st: Adjust, passes: nat, again: bool, status: Status)

  predicate ReadingsShaped(readings: seq<seq<int>>, n: nat)
  {
    |readings| >= Runs && forall p :: 0 <= p < |readings| ==> |readings[p]| == n
  }

  /**
   * The pass loop from pass `run` on: it runs while the previous pass
   * updated a DAC and fewer than 10 passes ran; after a pass with updates it
   * waits for the longest settle period, which fails on a default fixture.
   */
  function RunsFrom(st: Adjust, chans: seq<ChannelFixture>, has: seq<bool>, targets: seq<int>,
                    readings: seq<seq<int>>, run: nat, again: bool): (r: RunsOut)
    requires Shaped(st, |chans|) && |has| == |targets| == |chans|
    requires ReadingsShaped(readings, |chans|) && run <= Runs
    ensures Shaped(r.st, |chans|) && run <= r.passes <= Runs
    decreases Runs - run
  {
    if !again || run == Runs then RunsOut(st, run, again, Running)
    else
      var p := PassFrom(st, chans, has, targets, readings[run], 0, false);
      if p.status != Running then RunsOut(p.st, run + 1, p.again, p.status)
      else if p.again && SettlePeriodOf(chans).Err? then RunsOut(p.st, run + 1, p.again, Failed(SettlePeriodOf(chans).code))
      else RunsFrom(p.st, chans, has, targets, readings, run + 1, p.again)
  }

  /** One pass of the pass loop, unfolded. */
  lemma RunsFromStep(st: Adjust, chans: seq<ChannelFixture>, has: seq<bool>, targets: seq<int>,
                     readings: seq<seq<int>>, run: nat)
    requires Shaped(st, |chans|) && |has| == |targets| == |chans|
    requires ReadingsShaped(readings, |chans|) && run < Runs
    ensures var p := PassFrom(st, chans, has, targets, readings[run], 0, false);
      var r := RunsFrom(st, chans, has, targets, readings, run, true);
      && (p.status != Running ==> r == RunsOut(p.st, run + 1, p.again, p.status))
      && (p.status == Running && p.again && SettlePeriodOf(chans).Err? ==>
            r == RunsOut(p.st, run + 1, p.again, Failed(SettlePeriodOf(chans).code)))
      && (p.status == Running && !(p.again && SettlePeriodOf(chans).Err?) ==>
            r == RunsFrom(p.st, chans, has, targets, readings, run + 1, p.again))
  {
  }

  /** Every channel has a DB04 fixture. */
  predicate AllDb04(chans: seq<ChannelFixture>)
  {
    forall j :: 0 <= j < |chans| ==> chans[j].IsDb04()
  }

  /**
   * The `set_dac` calls of `set_dacs`, reached from `set_channel_voffset`:
   * every channel's fixture is asked to set its DAC, and the first one
   * that is not a DB04 throws `internal_failure`.
   */
  method DacFixtures(chans: seq<ChannelFixture>) returns (o: Outcome)
    ensures o.Pass? <==> AllDb04(chans)
    ensures o.Fail? ==> o == Fail(InternalFailure)
  {
    var i := 0;
    while i < |chans|
      invariant 0 <= i <= |chans|
      invariant forall j :: 0 <= j < i ==> chans[j].IsDb04()
    {
      if !chans[i].IsDb04() {
        return Fail(InternalFailure);
      }
      i := i + 1;
    }
    o := Pass;
  }

  /** `HAS_OFFSET_DAC` of every channel in order; the first fixture that cannot answer throws. */
  function HasOffsetDacs(chans: seq<ChannelFixture>): (r: Result<seq<bool>>)
    ensures r.Ok? ==> |r.value| == |chans| && forall i :: 0 <= i < |chans| ==> r.value[i]
    ensures r.Ok? <==> forall i :: 0 <= i < |chans| ==> chans[i].IsDb04()
    ensures r.Err? ==> r.code == InternalFailure
  {
    if chans == [] then Ok([])
    else
      var c := chans[|chans| - 1];
      match HasOffsetDacs(chans[..|chans| - 1])
      case Err(e) => Err(e)
      case Ok(has) =>
        if c.IsDb04() then
          assert forall i :: 0 <= i < |chans| - 1 ==> chans[..|chans| - 1][i] == chans[i];
          Ok(has + [true])
        else Err(InternalFailure)
  }

  /** The state `adjust_offsets` starts its loop from. */
  function InitialAdjust(initial: seq<int>): (st: Adjust)
    ensures Shaped(st, |initial|) && st.dacs == initial && st.writes == []
    ensures forall c :: 0 <= c < |initial| ==> st.fits[c] == []
  {
    Adjust(initial, seq(|initial|, _ => []), [])
  }

  /** The `OffsetDAC` values written back after the loop, converted to `param::value_type`. */
  function ToValues(dacs: seq<int>): (r: seq<bv32>)
    ensures |r| == |dacs| && forall c :: 0 <= c < |dacs| ==> r[c] == ToValueType(dacs[c])
  {
    seq(|dacs|, c requires 0 <= c < |dacs| => ToValueType(dacs[c]))
  }

  /** The first out-of-tolerance reading moves the DAC by exactly 200, down when the target is above the baseline. */
  lemma FirstStepLearns(st: Adjust, c: ChannelFixture, chan: nat, target: int, bl: int)
    requires chan < |st.dacs| == |st.fits| && st.fits[chan] == []
    requires OutOfTolerance(bl, target, c.adcBits)
    ensures ChannelMove(st, c, chan, true, target, bl)
         == MoveTo(if target > bl then st.dacs[chan] - 200 else st.dacs[chan] + 200,
                   [(bl, st.dacs[chan])])
  {
    assert [] + [(bl, st.dacs[chan])] == [(bl, st.dacs[chan])];
  }

  /**
   * From the second sample on, the DAC is set from the fit, and when the
   * channel's samples lie on a line `dac = K * baseline + C` the new DAC is
   * that line at the target.
   */
  lemma FitStepHitsLine(st: Adjust, c: ChannelFixture, chan: nat, target: int, bl: int, K: real, C: real)
    requires chan < |st.dacs| == |st.fits| && |st.fits[chan]| >= 1
    requires OutOfTolerance(bl, target, c.adcBits)
    requires Acc.DivisorR(st.fits[chan] + [(bl, st.dacs[chan])]) != 0.0
    requires Acc.OnLine(st.fits[chan] + [(bl, st.dacs[chan])], K, C)
    ensures ChannelMove(st, c, chan, true, target, bl)
         == MoveTo(Acc.LineAt(K, C, target), st.fits[chan] + [(bl, st.dacs[chan])])
  {
    var fit := st.fits[chan] + [(bl, st.dacs[chan])];
    NextDacOnLine(fit, st.dacs[chan], bl, target, K, C);
  }

  /** With at least two samples on the line `dac = K * baseline + C`, the next DAC is that line at the target. */
  lemma NextDacOnLine(fit: seq<(int, int)>, dac: int, bl: int, target: int, K: real, C: real)
    requires |fit| >= LinearFitSamples && Acc.DivisorR(fit) != 0.0 && Acc.OnLine(fit, K, C)
    ensures NextDac(fit, dac, bl, target) == Acc.LineAt(K, C, target)
  {
    Acc.FitRecoversLine(fit, K, C);
  }

  /** A channel without an offset DAC is never stepped, sampled or written in a pass. */
  lemma {:induction false} PassKeepsChannel(st: Adjust, chans: seq<ChannelFixture>, has: seq<bool>, targets: seq<int>,
                                            bls: seq<int>, chan: nat, again: bool, k: nat)
    requires chan <= |chans| && Shaped(st, |chans|)
    requires |has| == |targets| == |bls| == |chans|
    requires k < |chans| && !has[k]
    ensures PassFrom(st, chans, has, targets, bls, chan, again).st.dacs[k] == st.dacs[k]
    ensures PassFrom(st, chans, has, targets, bls, chan, again).st.fits[k] == st.fits[k]
    decreases |chans| - chan
  {
    if chan < |chans| {
      var s := ChannelStep(st, chans[chan], chan, has[chan], targets[chan], bls[chan]);
      if s.status == Running {
        PassKeepsChannel(s.st, chans, has, targets, bls, chan + 1, again || s.updated, k);
      }
    }
  }

  /** A channel without an offset DAC keeps its DAC and its fit through every pass. */
  lemma {:induction false} RunsKeepChannel(st: Adjust, chans: seq<ChannelFixture>, has: seq<bool>, targets: seq<int>,
                                           readings: seq<seq<int>>, run: nat, again: bool, k: nat)
    requires Shaped(st, |chans|) && |has| == |targets| == |chans|
    requires ReadingsShaped(readings, |chans|) && run <= Runs
    requires k < |chans| && !has[k]
    ensures RunsFrom(st, chans, has, targets, readings, run, again).st.dacs[k] == st.dacs[k]
    ensures RunsFrom(st, chans, has, targets, readings, run, again).st.fits[k] == st.fits[k]
    decreases Runs - run
  {
    if again && run < Runs {
      PassKeepsChannel(st, chans, has, targets, readings[run], 0, false, k);
      var p := PassFrom(st, chans, has, targets, readings[run], 0, false);
      if p.status == Running && !(p.again && SettlePeriodOf(chans).Err?) {
        RunsKeepChannel(p.st, chans, has, targets, readings, run + 1, p.again, k);
      }
    }
  }

  /**
   * The loop runs at most 10 passes, and when it ends without an error it
   * has either converged (the last pass changed nothing) or used all 10.
   */
  lemma {:induction false} RunsTerminate(st: Adjust, chans: seq<ChannelFixture>, has: seq<bool>, targets: seq<int>,
                                         readings: seq<seq<int>>, run: nat, again: bool)
    requires Shaped(st, |chans|) && |has| == |targets| == |chans|
    requires ReadingsShaped(readings, |chans|) && run <= Runs
    ensures var r := RunsFrom(st, chans, has, targets, readings, run, again);
      r.passes <= Runs && (r.status == Running ==> !r.again || r.passes == Runs)
    decreases Runs - run
  {
    if again && run < Runs {
      var p := PassFrom(st, chans, has, targets, readings[run], 0, false);
      if p.status == Running && !(p.again && SettlePeriodOf(chans).Err?) {
        RunsTerminate(p.st, chans, has, targets, readings, run + 1, p.again);
      }
    }
  }

  /** The whole of `adjust_offsets`: the state, the passes and the outcome. */
  function AdjustOffsetsOf(chans: seq<ChannelFixture>, percents: seq<real>, initial: seq<int>,
                           readings: seq<seq<int>>): RunsOut
    requires |percents| == |initial| == |chans| && ReadingsShaped(readings, |chans|)
  {
    match HasOffsetDacs(chans)
    case Err(e) => RunsOut(InitialAdjust(initial), 0, false, Failed(e))
    case Ok(has) => RunsFrom(InitialAdjust(initial), chans, has, Targets(chans, percents), readings, 0, true)
  }

  // ---------------------------------------------------------------------
  // The module fixture
  // ---------------------------------------------------------------------

  /** The `afe_dbs` module fixture over the module's channel fixtures. */
  class AfeDbsFixture {
    /** The module's channel fixtures, by channel number. */
    const channels: seq<ChannelFixture>
    /** `adcctrl`: one ADC control word per daughter board. */
    const adcctrl: array<Word>
    /** FIPPI `ADCCTRL` writes, as (board, word). */
    var fippiWrites: seq<(nat, Word)>
    /** DAC command writes made by the channel fixtures' `set_dac`. */
    var dacWrites: seq<DacWrite>

    ghost predicate Valid()
      reads this
    {
      && adcctrl.Length == MaxDbs
      && (forall i, j :: 0 <= i < j < |channels| ==> channels[i] != channels[j])
      && (forall i :: 0 <= i < |channels| ==> WellPlaced(channels[i]))
    }

    constructor (channels0: seq<ChannelFixture>)
      requires forall i, j :: 0 <= i < j < |channels0| ==> channels0[i] != channels0[j]
      requires forall i :: 0 <= i < |channels0| ==> WellPlaced(channels0[i])
      ensures Valid() && channels == channels0 && fresh(adcctrl)
      ensures adcctrl[..] == [{}, {}, {}, {}] && fippiWrites == [] && dacWrites == []
    {
      channels := channels0;
      adcctrl := new Word[MaxDbs](_ => {});
      fippiWrites, dacWrites := [], [];
      new;
      assert adcctrl[..] == [{}, {}, {}, {}];
    }

    /** `fgpa_fippi_loaded`: a freshly loaded FIPPI has every ADC unswapped. */
    method FgpaFippiLoaded()
      requires Valid()
      modifies adcctrl
      ensures adcctrl[..] == [{}, {}, {}, {}]
    {
      adcctrl[0], adcctrl[1], adcctrl[2], adcctrl[3] := {}, {}, {}, {};
      assert adcctrl[..] == [{}, {}, {}, {}];
    }

    /**
     * `boot`: `same` are the baselines with every offset at the low rail,
     * `moved` those with the even channels moved to the high rail, `verify`
     * those after the swap correction. Moving the offsets to the low rail
     * sets every channel's DAC first, which a channel without a DB04 cannot
     * do: `boot` then throws before it decides or writes anything.
     */
    method Boot(same: seq<int>, moved: seq<int>, verify: seq<int>) returns (o: Outcome)
      requires Valid() && |same| == |moved| == |verify| == |channels|
      modifies adcctrl, this`fippiWrites, channels
      ensures !AllDb04(channels) ==>
        && o == Fail(InternalFailure)
        && adcctrl[..] == old(adcctrl[..]) && fippiWrites == old(fippiWrites)
        && forall j :: 0 <= j < |channels| ==> channels[j].adcState == old(channels[j].adcState)
      ensures AllDb04(channels) ==>
        var sw := SwapFrom(old(adcctrl[..]), [], channels, Decisions(channels, same, moved), 0);
        && adcctrl[..] == sw.ctrl
        && fippiWrites == old(fippiWrites) + sw.writes
        && o == (if sw.status.Fail? then sw.status
                 else if VerifyFails(channels, same, verify) then Fail(ModuleInitializeFailure)
                 else Pass)
        && forall j :: 0 <= j < |channels| ==>
             channels[j].adcState ==
               if j < sw.stop || (j == sw.stop && channels[j].IsDb04())
               then NextSwapState(old(channels[j].adcState), SwapDecision(j, same[j], moved[j], channels[j].adcBits))
               else old(channels[j].adcState)
    {
      o := DacFixtures(channels);
      if o.Pass? {
        o := SwapAndVerify(same, moved, verify);
      }
    }

    /** The swap loop and the verification of `boot`, once every channel's DAC is set. */
    method SwapAndVerify(same: seq<int>, moved: seq<int>, verify: seq<int>) returns (o: Outcome)
      requires Valid() && |same| == |moved| == |verify| == |channels| && AllDb04(channels)
      modifies adcctrl, this`fippiWrites, channels
      ensures var sw := SwapFrom(old(adcctrl[..]), [], channels, Decisions(channels, same, moved), 0);
        && adcctrl[..] == sw.ctrl
        && fippiWrites == old(fippiWrites) + sw.writes
        && o == (if sw.status.Fail? then sw.status
                 else if VerifyFails(channels, same, verify) then Fail(ModuleInitializeFailure)
                 else Pass)
        && forall j :: 0 <= j < |channels| ==>
             channels[j].adcState ==
               if j < sw.stop || (j == sw.stop && channels[j].IsDb04())
               then NextSwapState(old(channels[j].adcState), SwapDecision(j, same[j], moved[j], channels[j].adcBits))
               else old(channels[j].adcState)
    {
      ghost var ctrl0 := adcctrl[..];
      ghost var writes: seq<(nat, Word)> := [];
      ghost var decisions := Decisions(channels, same, moved);
      ghost var final := SwapFrom(ctrl0, [], channels, decisions, 0);
      var chan := 0;
      while chan < |channels|
        invariant 0 <= chan <= |channels| && adcctrl.Length == MaxDbs
        invariant SwapFrom(adcctrl[..], writes, channels, decisions, chan) == final
        invariant fippiWrites == old(fippiWrites) + writes
        invariant forall j :: 0 <= j < |channels| ==>
          channels[j].adcState ==
            if j < chan then NextSwapState(old(channels[j].adcState), SwapDecision(j, same[j], moved[j], channels[j].adcBits))
            else old(channels[j].adcState)
      {
        var swapped := SwapDecision(chan, same[chan], moved[chan], channels[chan].adcBits);
        var recorded;
        recorded, writes := SwapChannel(chan, swapped, decisions, writes, old(fippiWrites));
        if recorded.Fail? {
          return recorded;
        }
        chan := chan + 1;
      }
      var failed := VerifySwap(channels, same, verify);
      if failed {
        return Fail(ModuleInitializeFailure);
      }
      o := Pass;
    }

    /**
     * Channel `chan` in the swap loop of `boot`: it records its decision in
     * its fixture and, when swapped, ORs its bit into its board's `adcctrl`
     * word, writing the word to the FIPPI when it changed.
     */
    method SwapChannel(chan: nat, swapped: bool, ghost decisions: seq<bool>, ghost writes: seq<(nat, Word)>,
                       ghost base: seq<(nat, Word)>)
      returns (o: Outcome, ghost writes': seq<(nat, Word)>)
      requires Valid() && chan < |channels| == |decisions| && decisions[chan] == swapped
      requires fippiWrites == base + writes
      modifies adcctrl, this`fippiWrites, channels[chan]
      ensures fippiWrites == base + writes'
      ensures var before := SwapFrom(old(adcctrl[..]), writes, channels, decisions, chan);
        if o.Pass? then before == SwapFrom(adcctrl[..], writes', channels, decisions, chan + 1)
        else before == SwapOut(adcctrl[..], writes', o, chan)
      ensures channels[chan].adcState ==
        if channels[chan].IsDb04() then NextSwapState(old(channels[chan].adcState), decisions[chan])
        else old(channels[chan].adcState)
    {
      var c := channels[chan];
      writes' := writes;
      o := c.SetBool("ADC_SWAP", swapped);
      if o.Fail? || !swapped {
        return;
      }
      var chanDb := c.GetInt("DB_NUMBER");
      var chanOffset := c.GetInt("DB_OFFSET");
      if chanDb.value >= MaxDbs {
        return Fail(ModuleInitializeFailure), writes';
      }
      assert WellPlaced(channels[chan]);
      var d := chanDb.value;
      var last := adcctrl[d];
      adcctrl[d] := adcctrl[d] + {SwapBit(chanOffset.value)};
      if adcctrl[d] != last {
        fippiWrites := fippiWrites + [(d, adcctrl[d])];
        writes' := writes' + [(d, adcctrl[d])];
      }
      assert adcctrl[..] == old(adcctrl[..])[d := adcctrl[d]];
    }

    /**
     * `adjust_offsets`: `percents` are the channels' baseline percentages,
     * `initial` their `OffsetDAC` values and `readings[p]` the baselines
     * analysed in pass `p`. On success the result holds the `OffsetDAC`
     * values written back, converged or not.
     */
    method AdjustOffsets(percents: seq<real>, initial: seq<int>, readings: seq<seq<int>>)
      returns (r: Result<seq<bv32>>, passes: nat)
      requires Valid() && |percents| == |initial| == |channels| && ReadingsShaped(readings, |channels|)
      requires AdjustOffsetsOf(channels, percents, initial, readings).status != DivideByZero
      modifies this`dacWrites
      ensures var spec := AdjustOffsetsOf(channels, percents, initial, readings);
        && passes == spec.passes
        && dacWrites == old(dacWrites) + spec.st.writes
        && (spec.status.Failed? ==> r == Err(spec.status.code))
        && (spec.status == Running ==> r == Ok(ToValues(spec.st.dacs)))
    {
      ghost var spec := AdjustOffsetsOf(channels, percents, initial, readings);
      var hasResult := HasOffsetDacsOf(channels);
      if hasResult.Err? {
        return Err(hasResult.code), 0;
      }
      var has := hasResult.value;
      var targets := Targets(channels, percents);
      var st := InitialAdjust(initial);
      var runAgain := true;
      var run := 0;
      var status := Running;
      while runAgain && run < Runs && status == Running
        invariant run <= Runs && Shaped(st, |channels|)
        invariant status == Running ==> RunsFrom(st, channels, has, targets, readings, run, runAgain) == spec
        invariant status != Running ==> spec == RunsOut(st, run, runAgain, status)
        invariant dacWrites == old(dacWrites) + st.writes
        decreases Runs - run
      {
        st, runAgain, status := RunOnce(st, has, targets, readings, run, old(dacWrites));
        run := run + 1;
      }
      r := if status.Failed? then Err(status.code) else Ok(ToValues(st.dacs));
      passes := run;
    }

    /**
     * One run of the pass loop of `adjust_offsets`: a pass over the channels,
     * then, when it updated a DAC, the settle period.
     */
    method RunOnce(st0: Adjust, has: seq<bool>, targets: seq<int>, readings: seq<seq<int>>, run: nat,
                   ghost base: seq<DacWrite>)
      returns (st: Adjust, again: bool, status: Status)
      requires Valid() && Shaped(st0, |channels|) && |has| == |targets| == |channels|
      requires ReadingsShaped(readings, |channels|) && run < Runs
      requires RunsFrom(st0, channels, has, targets, readings, run, true).status != DivideByZero
      requires dacWrites == base + st0.writes
      modifies this`dacWrites
      ensures Shaped(st, |channels|) && dacWrites == base + st.writes
      ensures var spec := RunsFrom(st0, channels, has, targets, readings, run, true);
        if status == Running then spec == RunsFrom(st, channels, has, targets, readings, run + 1, again)
        else spec == RunsOut(st, run + 1, again, status)
    {
      RunsFromStep(st0, channels, has, targets, readings, run);
      var p := RunPass(st0, has, targets, readings[run], base);
      st, again, status := p.st, p.again, p.status;
      if status == Running && again {
        var settle := SettlePeriod(channels);
        if settle.Err? {
          status := Failed(settle.code);
        }
      }
    }

    /**
     * Channel `chan` in one pass of `adjust_offsets`: when it has an offset
     * DAC and its baseline `bl` is out of tolerance of `target`, the sample
     * is added to its fit, its DAC moves and is set with `set_dac`.
     */
    method StepChannel(st: Adjust, chan: nat, has: bool, target: int, bl: int, ghost base: seq<DacWrite>)
      returns (s: StepOut)
      requires Valid() && Shaped(st, |channels|) && chan < |channels|
      requires ChannelStep(st, channels[chan], chan, has, target, bl).status != DivideByZero
      requires dacWrites == base + st.writes
      modifies this`dacWrites
      ensures s == ChannelStep(st, channels[chan], chan, has, target, bl)
      ensures dacWrites == base + s.st.writes
    {
      var c := channels[chan];
      if !(has && OutOfTolerance(bl, target, c.adcBits)) {
        return StepOut(st, false, Running, []);
      }
      var dac := st.dacs[chan];
      var fit := st.fits[chan] + [(bl, dac)];
      if |fit| < LinearFitSamples {
        if target > bl {
          dac := dac - DacSlopeLearnSteps;
        } else {
          dac := dac + DacSlopeLearnSteps;
        }
      } else {
        assert Acc.DivisorR(fit) != 0.0;
        dac := Acc.LineAt(Acc.FitK(fit), Acc.FitC(fit), target);
      }
      assert ChannelMove(st, c, chan, has, target, bl) == MoveTo(dac, fit);
      var st1 := st.(dacs := st.dacs[chan := dac], fits := st.fits[chan := fit]);
      var w := c.SetDac(ToValueType(dac));
      if w.Err? {
        return StepOut(st1, true, Failed(w.code), []);
      }
      dacWrites := dacWrites + [w.value];
      s := StepOut(st1.(writes := st1.writes + [w.value]), true, Running, [w.value]);
    }

    /**
     * One pass of the channel loop of `adjust_offsets` over the baselines
     * `bls`: each channel with an offset DAC whose baseline is out of
     * tolerance of its target gets a new sample and a new DAC value, which is
     * set with `set_dac`.
     */
    method RunPass(st0: Adjust, has: seq<bool>, targets: seq<int>, bls: seq<int>, ghost base: seq<DacWrite>)
      returns (p: PassOut)
      requires Valid() && Shaped(st0, |channels|) && |has| == |targets| == |bls| == |channels|
      requires PassFrom(st0, channels, has, targets, bls, 0, false).status != DivideByZero
      requires dacWrites == base + st0.writes
      modifies this`dacWrites
      ensures p == PassFrom(st0, channels, has, targets, bls, 0, false)
      ensures dacWrites == base + p.st.writes
    {
      var st := st0;
      var runAgain := false;
      var chan := 0;
      while chan < |channels|
        invariant chan <= |channels| && Shaped(st, |channels|)
        invariant PassFrom(st, channels, has, targets, bls, chan, runAgain)
               == PassFrom(st0, channels, has, targets, bls, 0, false)
        invariant dacWrites == base + st.writes
      {
        var s := StepChannel(st, chan, has[chan], targets[chan], bls[chan], base);
        if s.status != Running {
          return PassOut(s.st, runAgain || s.updated, s.status);
        }
        st, runAgain := s.st, runAgain || s.updated;
        chan := chan + 1;
      }
      p := PassOut(st, runAgain, Running);
    }
  }

  /** The `HAS_OFFSET_DAC` loop of `adjust_offsets`, asking each channel fixture in order. */
  method HasOffsetDacsOf(chans: seq<ChannelFixture>) returns (r: Result<seq<bool>>)
    ensures r == HasOffsetDacs(chans)
  {
    var has: seq<bool> := [];
    var i := 0;
    while i < |chans|
      invariant 0 <= i <= |chans|
      invariant HasOffsetDacs(chans[..i]) == Ok(has)
    {
      assert chans[..i + 1][..i] == chans[..i];
      var h := chans[i].GetBool("HAS_OFFSET_DAC");
      if h.Err? {
        assert !chans[i].IsDb04();
        return Err(h.code);
      }
      has := has + [h.value];
      i := i + 1;
    }
    assert chans[..i] == chans;
    r := Ok(has);
  }
}
