/**
 * Channel fixtures: the default fixture, which supports no fixture
 * operation, and the DB04 daughter-board fixture with its ADC swap state,
 * its queries and the bit-packed command word of its offset DAC. Also the
 * two factories `make` and the settle-period query over a module's channels.
 *
 * The hardware write of the DAC command, the port select and the waits are
 * not performed: `SetDac` returns the port and the word the source writes.
 */
module Fixture {
  import opened Errors

  /** `hw::module_fixture`. */
  datatype ModuleFixture = Mainboard | DB01 | DB02 | DB04 | DB06 | DB07

  /** `db::adc_swap_state`. */
  datatype AdcSwapState = AdcBootState | AdcUnswapped | AdcSwapped

  /** The fixture kinds `make(pixie::module::module&)` creates. */
  datatype ModuleFixtureKind = DefaultModule | AfeDbsModule

  /** `hw::rev_tag::rev_H` (`rev_A` is 10). */
  const RevH: int := 17

  /** `db04::dac_settle_time_ms`. */
  const DacSettleTimeMs: int := 250

  /** `param::value_type` is a 32-bit unsigned integer. */
  const ValueTypeModulus: int := 0x1_0000_0000

  /** Conversion of a C++ `int` to `param::value_type`: reduction modulo 2^32. */
  function ToValueType(v: int): bv32
  {
    (v % ValueTypeModulus) as bv32
  }

  /** A DAC value in 0..65535 converts to a `value_type` that `set_dac` accepts; -1 becomes 0xffffffff. */
  lemma ToValueTypeRange(v: int)
    ensures 0 <= v <= 0xffff ==> ToValueType(v) <= 0xffff
    ensures ToValueType(-1) == 0xffff_ffff
  {
  }

  /** The new swap state after `set("ADC_SWAP", swapped)`: only the boot state changes. */
  function NextSwapState(s: AdcSwapState, swapped: bool): AdcSwapState
  {
    if s == AdcBootState then (if swapped then AdcSwapped else AdcUnswapped) else s
  }

  /**
   * The swap state can be set once: from the boot state it records the
   * decision, and a second `set` never changes it again.
   */
  lemma SwapStateSetOnce(s: AdcSwapState, first: bool, second: bool)
    ensures NextSwapState(AdcBootState, first) != AdcBootState
    ensures (NextSwapState(AdcBootState, first) == AdcSwapped) == first
    ensures NextSwapState(NextSwapState(s, first), second) == NextSwapState(s, first)
    ensures s != AdcBootState ==> NextSwapState(s, first) == s
  {
  }

  // ---------------------------------------------------------------------
  // The DB04 offset DAC command word
  // ---------------------------------------------------------------------

  /** DAC address: bit 1 selects the DAC of the lower four channels of the board. */
  function DacAddr(offset: int): bv32
  {
    0x20 | ((if offset < 4 then 1 else 0) << 1)
  }

  /** DAC output select, compensating for the PCB's ADC swapping. */
  function DacCtrl(offset: int): bv32
  {
    0x30 + (if offset == 0 || offset == 4 then 1
            else if offset == 1 || offset == 5 then 2
            else if offset == 2 || offset == 6 then 0
            else if offset == 3 || offset == 7 then 3
            else 0)
  }

  /** The CFG_DAC word `[addr(8), ctrl(8), data(16)]`. */
  function DacWord(offset: int, value: bv32): bv32
    requires value <= 0xffff
  {
    (DacAddr(offset) << 24) | (DacCtrl(offset) << 16) | value
  }

  /** The three fields of the DAC word decode back unchanged. */
  lemma DacWordDecodes(offset: int, value: bv32)
    requires value <= 0xffff
    ensures DacWord(offset, value) >> 24 == DacAddr(offset)
    ensures (DacWord(offset, value) >> 16) & 0xff == DacCtrl(offset)
    ensures DacWord(offset, value) & 0xffff == value
  {
    var a, c := DacAddr(offset), DacCtrl(offset);
    assert a == 0x20 || a == 0x22;
    assert 0x30 <= c <= 0x33;
  }

  /** Offsets below 4 address DAC 0x22, the others 0x20. */
  lemma DacAddrSelectsHalf(offset: int)
    ensures DacAddr(offset) == (if offset < 4 then 0x22 else 0x20)
  {
  }

  /** The output selected for offsets 0..7 is B, C, A, D, B, C, A, D. */
  lemma DacCtrlTable(offset: int)
    requires 0 <= offset < 8
    ensures DacCtrl(offset) - 0x30 == [1, 2, 0, 3][offset % 4]
  {
  }

  /** The eight channels of a board reach eight different DAC outputs. */
  lemma DacSelectionInjective(o1: int, o2: int)
    requires 0 <= o1 < 8 && 0 <= o2 < 8 && o1 != o2
    ensures DacAddr(o1) != DacAddr(o2) || DacCtrl(o1) != DacCtrl(o2)
  {
    DacCtrlTable(o1);
    DacCtrlTable(o2);
  }

  /** What `set_dac` writes: the module port it selects and the CFG_DAC word. */
  datatype DacWrite = DacWrite(port: int, word: bv32)

  // ---------------------------------------------------------------------
  // Channel fixtures
  // ---------------------------------------------------------------------

  /**
   * A channel fixture as `make` creates it: a DB04 fixture for a channel
   * configured with the DB04 front end, the default fixture otherwise. The
   * DB number, base and offset exist only for the DB04.
   */
  class ChannelFixture {
    /** The module channel number. */
    const channel: nat
    /** `config.fixture`. */
    const kind: ModuleFixture
    /** `config.adc_bits`. */
    const adcBits: nat
    const dbNumber: int
    const dbBase: int
    const dbOffset: int
    var adcState: AdcSwapState

    predicate IsDb04()
    {
      kind == DB04
    }

    /**
     * `make(channel, config)`: `dbNumber0` and `dbBase0` are the EEPROM's
     * answers for the channel (the EEPROM lookups are not modelled).
     */
    constructor Make(channel0: nat, kind0: ModuleFixture, adcBits0: nat, dbNumber0: int, dbBase0: int)
      ensures channel == channel0 && kind == kind0 && adcBits == adcBits0
      ensures IsDb04() <==> kind0 == DB04
      ensures kind0 == DB04 ==> dbNumber == dbNumber0 && dbBase == dbBase0 && dbOffset == channel0 - dbBase0
      ensures kind0 != DB04 ==> dbNumber == 0 && dbBase == 0 && dbOffset == 0
      ensures adcState == AdcBootState
    {
      channel, kind, adcBits := channel0, kind0, adcBits0;
      if kind0 == DB04 {
        dbNumber, dbBase, dbOffset := dbNumber0, dbBase0, channel0 - dbBase0;
      } else {
        dbNumber, dbBase, dbOffset := 0, 0, 0;
      }
      adcState := AdcBootState;
    }

    /** `set(item, bool)`: only a DB04 supports `ADC_SWAP`; everything else is unsupported. */
    method SetBool(item: string, value: bool) returns (o: Outcome)
      modifies this`adcState
      ensures o == (if IsDb04() && item == "ADC_SWAP" then Pass else Fail(InternalFailure))
      ensures adcState == (if o.Pass? then NextSwapState(old(adcState), value) else old(adcState))
    {
      if IsDb04() && item == "ADC_SWAP" {
        if adcState == AdcBootState {
          adcState := if value then AdcSwapped else AdcUnswapped;
        }
        o := Pass;
      } else {
        o := Fail(InternalFailure);
      }
    }

    /** `get(item, bool&)`. */
    function GetBool(item: string): (r: Result<bool>)
      reads this
      ensures r.Ok? <==> IsDb04() && (item == "HAS_OFFSET_DAC" || item == "ADC_SWAP")
      ensures r.Err? ==> r.code == InternalFailure
      ensures IsDb04() && item == "HAS_OFFSET_DAC" ==> r == Ok(true)
      ensures IsDb04() && item == "ADC_SWAP" ==> r == Ok(adcState == AdcSwapped)
    {
      if !IsDb04() then Err(InternalFailure)
      else if item == "HAS_OFFSET_DAC" then Ok(true)
      else if item == "ADC_SWAP" then Ok(adcState == AdcSwapped)
      else Err(InternalFailure)
    }

    /** `get(item, int&)`. */
    function GetInt(item: string): (r: Result<int>)
      ensures r.Ok? <==> IsDb04() && item in {"DAC_SETTLE_PERIOD", "DB_NUMBER", "DB_OFFSET"}
      ensures r.Err? ==> r.code == InternalFailure
      ensures IsDb04() && item == "DAC_SETTLE_PERIOD" ==> r == Ok(DacSettleTimeMs)
      ensures IsDb04() && item == "DB_NUMBER" ==> r == Ok(dbNumber)
      ensures IsDb04() && item == "DB_OFFSET" ==> r == Ok(dbOffset)
    {
      if !IsDb04() then Err(InternalFailure)
      else if item == "DAC_SETTLE_PERIOD" then Ok(DacSettleTimeMs)
      else if item == "DB_NUMBER" then Ok(dbNumber)
      else if item == "DB_OFFSET" then Ok(dbOffset)
      else Err(InternalFailure)
    }

    /** `get(item, double&)`: no fixture answers a `double` query. */
    function GetReal(item: string): (r: Result<real>)
      ensures r.Err? && r.code == InternalFailure
    {
      Err(InternalFailure)
    }

    /**
     * `set_dac(value)`: the default fixture does not support it; a DB04
     * rejects a value above 0xffff and otherwise selects port `number + 1`
     * and writes the DAC word.
     */
    function SetDac(value: bv32): (r: Result<DacWrite>)
      ensures !IsDb04() ==> r == Err(InternalFailure)
      ensures IsDb04() && value > 0xffff ==> r == Err(InvalidValue)
      ensures r.Ok? <==> IsDb04() && value <= 0xffff
      ensures r.Ok? ==> r.value == DacWrite(dbNumber + 1, DacWord(dbOffset, value))
    {
      if !IsDb04() then Err(InternalFailure)
      else if value > 0xffff then Err(InvalidValue)
      else Ok(DacWrite(dbNumber + 1, DacWord(dbOffset, value)))
    }
  }

  /** The settle-period query folded with `max` over the channels, stopping at the first failure. */
  function SettlePeriodOf(chans: seq<ChannelFixture>): Result<int>
  {
    if chans == [] then Ok(0)
    else
      match SettlePeriodOf(chans[..|chans| - 1])
      case Err(e) => Err(e)
      case Ok(p) =>
        match chans[|chans| - 1].GetInt("DAC_SETTLE_PERIOD")
        case Err(e) => Err(e)
        case Ok(q) => Ok(if p < q then q else p)
  }

  /**
   * The longest settling period of a module's channels: 250 ms when every
   * channel is a DB04 (0 with no channels), and `internal_failure` as soon
   * as any channel is not.
   */
  lemma {:induction false} SettlePeriodValue(chans: seq<ChannelFixture>)
    ensures (forall i :: 0 <= i < |chans| ==> chans[i].IsDb04()) ==>
      SettlePeriodOf(chans) == Ok(if chans == [] then 0 else DacSettleTimeMs)
    ensures (exists i :: 0 <= i < |chans| && !chans[i].IsDb04()) ==>
      SettlePeriodOf(chans) == Err(InternalFailure)
  {
    if chans != [] {
      var t := chans[..|chans| - 1];
      SettlePeriodValue(t);
      assert forall i :: 0 <= i < |t| ==> t[i] == chans[i];
      if exists i :: 0 <= i < |chans| && !chans[i].IsDb04() {
        var i :| 0 <= i < |chans| && !chans[i].IsDb04();
        if i < |t| {
          assert !t[i].IsDb04();
        }
      }
    }
  }

  /** The `max` loop of `wait_dac_settle_period` (the wait itself is not modelled). */
  method SettlePeriod(chans: seq<ChannelFixture>) returns (r: Result<int>)
    ensures r == SettlePeriodOf(chans)
  {
    var period := 0;
    var i := 0;
    while i < |chans|
      invariant 0 <= i <= |chans|
      invariant SettlePeriodOf(chans[..i]) == Ok(period)
    {
      assert chans[..i + 1][..i] == chans[..i];
      var q := chans[i].GetInt("DAC_SETTLE_PERIOD");
      if q.Err? {
        assert SettlePeriodOf(chans[..i + 1]) == Err(q.code);
        PrefixFailureSticks(chans, i + 1, q.code);
        return Err(q.code);
      }
      period := if period < q.value then q.value else period;
      i := i + 1;
    }
    assert chans[..i] == chans;
    r := Ok(period);
  }

  /** Once a prefix of the channels fails, the whole fold fails with the same code. */
  lemma {:induction false} PrefixFailureSticks(chans: seq<ChannelFixture>, k: nat, e: Code)
    requires k <= |chans| && SettlePeriodOf(chans[..k]) == Err(e)
    ensures SettlePeriodOf(chans) == Err(e)
    decreases |chans| - k
  {
    if k < |chans| {
      assert chans[..k + 1][..k] == chans[..k];
      PrefixFailureSticks(chans, k + 1, e);
    } else {
      assert chans[..k] == chans;
    }
  }

  /** `make(module)`: a rev H module gets the AFE daughter-board fixture. */
  function MakeModuleFixture(revTag: int): (k: ModuleFixtureKind)
    ensures k == AfeDbsModule <==> revTag == RevH
  {
    if revTag == RevH then AfeDbsModule else DefaultModule
  }
}
