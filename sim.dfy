/**
 * The Pixie-16 simulator: the module definitions read from text
 * (`add_module_def`, `load_module_defs`), the variable defaults a simulated
 * module loads (`load_var_defaults`), and the simulated module's
 * open/close/probe/boot state.
 *
 * `util::split`, `util::trim` and the variable lookups of the parameter
 * layer are not part of this model: they are given as parameters (functions
 * and maps). Input streams are given as their sequence of lines.
 */
module Sim {
  import opened Errors
  import Fixture

  // ---------------------------------------------------------------------
  // `std::stoul`
  // ---------------------------------------------------------------------

  /** The largest `unsigned long` (64 bits). */
  const ULongMax: nat := 0xFFFF_FFFF_FFFF_FFFF

  /** The characters `isspace` accepts in the C locale. */
  predicate IsSpace(c: char)
  {
    c == ' ' || c == '\t' || c == '\n' || c == '\r' || c as int == 11 || c as int == 12
  }

  predicate IsDigit(c: char)
  {
    '0' as int <= c as int <= '9' as int
  }

  /** The first index at or after `i` that is not white space. */
  function SkipSpaces(s: string, i: nat): (r: nat)
    requires i <= |s|
    ensures i <= r <= |s| && (r < |s| ==> !IsSpace(s[r]))
    ensures forall k :: i <= k < r ==> IsSpace(s[k])
    decreases |s| - i
  {
    if i < |s| && IsSpace(s[i]) then SkipSpaces(s, i + 1) else i
  }

  /** The end of the run of digits starting at `i`. */
  function DigitRun(s: string, i: nat): (r: nat)
    requires i <= |s|
    ensures i <= r <= |s| && (r < |s| ==> !IsDigit(s[r]))
    ensures forall k :: i <= k < r ==> IsDigit(s[k])
    decreases |s| - i
  {
    if i < |s| && IsDigit(s[i]) then DigitRun(s, i + 1) else i
  }

  /** The value of a string of decimal digits. */
  function DigitsValue(d: string): nat
    requires forall k :: 0 <= k < |d| ==> IsDigit(d[k])
  {
    if d == [] then 0 else 10 * DigitsValue(d[..|d| - 1]) + DigitOf(d[|d| - 1])
  }

  function DigitOf(c: char): (v: nat)
    requires IsDigit(c)
    ensures v < 10
  {
    c as int - '0' as int
  }

  /**
   * `std::stoul(s)` in base 10: leading white space, an optional sign, then
   * the longest run of digits; the rest of the string is ignored. No digits
   * (`std::invalid_argument`) or a magnitude beyond `unsigned long`
   * (`std::out_of_range`) throws; a minus sign negates modulo 2^64.
   */
  function Stoul(s: string): (r: Result<nat>)
    ensures r.Ok? ==> r.value <= ULongMax
    ensures r.Err? ==> r.code == StdException
  {
    var i := SkipSpaces(s, 0);
    var negative := i < |s| && s[i] == '-';
    var j := if i < |s| && (s[i] == '+' || s[i] == '-') then i + 1 else i;
    var k := DigitRun(s, j);
    if k == j then Err(StdException)
    else
      var v := DigitsValue(s[j..k]);
      if v > ULongMax then Err(StdException)
      else Ok(if negative then (ULongMax + 1 - v) % (ULongMax + 1) else v)
  }

  function DigitChar(d: nat): (c: char)
    requires d < 10
    ensures IsDigit(c) && DigitOf(c) == d
  {
    ('0' as int + d) as char
  }

  /** The decimal text of `n`, no sign and no leading zeros. */
  function DecimalText(n: nat): (s: string)
    ensures |s| > 0
  {
    if n < 10 then [DigitChar(n)] else DecimalText(n / 10) + [DigitChar(n % 10)]
  }

  lemma {:induction false} DecimalTextDigits(n: nat)
    ensures forall k :: 0 <= k < |DecimalText(n)| ==> IsDigit(DecimalText(n)[k])
    ensures DigitsValue(DecimalText(n)) == n
  {
    if n >= 10 {
      DecimalTextDigits(n / 10);
      var s := DecimalText(n);
      assert s[..|s| - 1] == DecimalText(n / 10);
    }
  }

  lemma {:induction false} DigitRunAll(s: string, i: nat)
    requires i <= |s| && forall k :: i <= k < |s| ==> IsDigit(s[k])
    ensures DigitRun(s, i) == |s|
    decreases |s| - i
  {
    if i < |s| {
      DigitRunAll(s, i + 1);
    }
  }

  /**
   * `stoul` reads back the decimal text of every `unsigned long`, whatever
   * non-digit text follows it.
   */
  lemma StoulDecimalText(n: nat, rest: string)
    requires n <= ULongMax
    requires rest == [] || !IsDigit(rest[0])
    ensures Stoul(DecimalText(n) + rest) == Ok(n)
  {
    var d := DecimalText(n);
    var s := d + rest;
    DecimalTextDigits(n);
    assert !IsSpace(s[0]) && s[0] != '+' && s[0] != '-';
    assert SkipSpaces(s, 0) == 0;
    DigitRunAll(d, 0);
    var k := DigitRun(s, 0);
    assert forall i :: 0 <= i < |d| ==> s[i] == d[i];
    assert rest != [] ==> s[|d|] == rest[0];
    assert k == |d|;
    assert s[0..k] == d;
  }

  // ---------------------------------------------------------------------
  // Module definitions
  // ---------------------------------------------------------------------

  /** A simulated module's definition; every field starts at 0 or empty. */
  datatype ModuleDef = ModuleDef(
    deviceNumber: nat,
    slot: nat,
    revision: nat,
    eepromFormat: nat,
    serialNum: nat,
    numChannels: nat,
    adcBits: nat,
    adcMsps: nat,
    adcClkDiv: nat,
    varDefaults: string)

  /** The `module_def` constructor. */
  function DefaultDef(): (d: ModuleDef)
    ensures forall l :: l != VarDefaults ==> Get(d, l) == Num(0)
    ensures Get(d, VarDefaults) == Text("")
  {
    ModuleDef(0, 0, 0, 0, 0, 0, 0, 0, 0, "")
  }

  /** The labels a definition field may carry. */
  datatype Label =
    | DeviceNumber | Slot | Revision | EepromFormat | SerialNum
    | NumChannels | AdcBits | AdcMsps | AdcClkDiv | VarDefaults

  /** The label a field names, if `add_module_def` knows it. */
  function LabelOf(s: string): Option<Label>
  {
    if s == "device-number" then Some(DeviceNumber)
    else if s == "slot" then Some(Slot)
    else if s == "revision" then Some(Revision)
    else if s == "eeprom-format" then Some(EepromFormat)
    else if s == "serial-num" then Some(SerialNum)
    else if s == "num-channels" then Some(NumChannels)
    else if s == "adc-bits" then Some(AdcBits)
    else if s == "adc-msps" then Some(AdcMsps)
    else if s == "adc-clk-div" then Some(AdcClkDiv)
    else if s == "var-defaults" then Some(VarDefaults)
    else None
  }

  datatype Option<T> = None | Some(value: T)

  /** A field's value: a number, or the text of `var-defaults`. */
  datatype FieldValue = Num(n: nat) | Text(s: string)

  function Get(d: ModuleDef, l: Label): FieldValue
  {
    match l
    case DeviceNumber => Num(d.deviceNumber)
    case Slot => Num(d.slot)
    case Revision => Num(d.revision)
    case EepromFormat => Num(d.eepromFormat)
    case SerialNum => Num(d.serialNum)
    case NumChannels => Num(d.numChannels)
    case AdcBits => Num(d.adcBits)
    case AdcMsps => Num(d.adcMsps)
    case AdcClkDiv => Num(d.adcClkDiv)
    case VarDefaults => Text(d.varDefaults)
  }

  /** The definition with the numeric field `l` set to `n`. */
  function SetNum(d: ModuleDef, l: Label, n: nat): (r: ModuleDef)
    requires l != VarDefaults
    ensures Get(r, l) == Num(n)
    ensures forall o :: o != l ==> Get(r, o) == Get(d, o)
  {
    match l
    case DeviceNumber => d.(deviceNumber := n)
    case Slot => d.(slot := n)
    case Revision => d.(revision := n)
    case EepromFormat => d.(eepromFormat := n)
    case SerialNum => d.(serialNum := n)
    case NumChannels => d.(numChannels := n)
    case AdcBits => d.(adcBits := n)
    case AdcMsps => d.(adcMsps := n)
    case AdcClkDiv => d.(adcClkDiv := n)
  }

  /** Why `add_module_def` rejects a definition; every reason raises `invalid_value`. */
  datatype DefError =
    | Malformed(field: string)     // the field is not exactly `label=value`
    | UnknownLabel(field: string)  // the label is not a definition field
    | BadValue(value: string)      // `stoul` rejects the value

  datatype Parse = Parsed(def: ModuleDef) | Rejected(error: DefError)

  /** The code `add_module_def` raises for any rejection. */
  function ErrorCode(e: DefError): (c: Code)
    ensures c == InvalidValue
  {
    InvalidValue
  }

  /** The field `field` applied to the definition parsed so far. */
  function ApplyField(d: ModuleDef, field: string, split: (string, char) -> seq<string>): Parse
  {
    var lv := split(field, '=');
    if |lv| != 2 then Rejected(Malformed(field))
    else match LabelOf(lv[0])
      case None => Rejected(UnknownLabel(field))
      case Some(l) =>
        if l == VarDefaults then Parsed(d.(varDefaults := lv[1]))
        else match Stoul(lv[1])
          case Err(_) => Rejected(BadValue(lv[1]))
          case Ok(n) => Parsed(SetNum(d, l, n))
  }

  /** The definition the fields give, or the first field's rejection. */
  function ParseFields(fields: seq<string>, split: (string, char) -> seq<string>): Parse
  {
    if fields == [] then Parsed(DefaultDef())
    else match ParseFields(fields[..|fields| - 1], split)
      case Rejected(e) => Rejected(e)
      case Parsed(d) => ApplyField(d, fields[|fields| - 1], split)
  }

  /** `add_module_def`'s parse of a description. */
  function ParseModuleDef(desc: string, delimiter: char, split: (string, char) -> seq<string>): Parse
  {
    ParseFields(split(desc, delimiter), split)
  }

  /** A field `add_module_def` accepts: `label=value` with a known label and, unless text, a value `stoul` reads. */
  predicate FieldOk(field: string, split: (string, char) -> seq<string>)
  {
    var lv := split(field, '=');
    |lv| == 2 && LabelOf(lv[0]).Some? && (LabelOf(lv[0]).value == VarDefaults || Stoul(lv[1]).Ok?)
  }

  /** The value the last field naming `l` gives, if any field does. */
  function LastValue(fields: seq<string>, l: Label, split: (string, char) -> seq<string>): Option<string>
  {
    if fields == [] then None
    else
      var lv := split(fields[|fields| - 1], '=');
      if |lv| == 2 && LabelOf(lv[0]) == Some(l) then Some(lv[1])
      else LastValue(fields[..|fields| - 1], l, split)
  }

  /** What field `l` holds when its last value is `v` (none: the default). */
  function Expected(l: Label, v: Option<string>): FieldValue
  {
    match v
    case None => if l == VarDefaults then Text("") else Num(0)
    case Some(s) => if l == VarDefaults then Text(s) else Num(if Stoul(s).Ok? then Stoul(s).value else 0)
  }

  /** One field is accepted iff it is well formed. */
  lemma ApplyFieldOk(d: ModuleDef, field: string, split: (string, char) -> seq<string>)
    ensures ApplyField(d, field, split).Parsed? <==> FieldOk(field, split)
  {
  }

  /** One field is accepted iff it is well formed; it sets only the field it names. */
  lemma ApplyFieldMeaning(d: ModuleDef, field: string, split: (string, char) -> seq<string>)
    ensures ApplyField(d, field, split).Parsed? <==> FieldOk(field, split)
    ensures FieldOk(field, split) ==>
      var lv := split(field, '=');
      forall l :: Get(ApplyField(d, field, split).def, l) ==
        if LabelOf(lv[0]) == Some(l) then Expected(l, Some(lv[1])) else Get(d, l)
  {
  }

  /** A description parses iff every field is `label=value` with a known label and a readable value. */
  lemma {:induction false} ParseFieldsAccepts(fields: seq<string>, split: (string, char) -> seq<string>)
    ensures ParseFields(fields, split).Parsed? <==> forall k :: 0 <= k < |fields| ==> FieldOk(fields[k], split)
  {
    if fields != [] {
      var init := fields[..|fields| - 1];
      ParseFieldsAccepts(init, split);
      assert forall k :: 0 <= k < |init| ==> init[k] == fields[k];
      if ParseFields(init, split).Parsed? {
        ApplyFieldOk(ParseFields(init, split).def, fields[|fields| - 1], split);
      }
    }
  }

  /**
   * In a parsed description each field holds the value of the last field
   * naming it, and a field no label names keeps its default.
   */
  lemma {:induction false} ParseFieldsLastWins(fields: seq<string>, split: (string, char) -> seq<string>, l: Label)
    requires ParseFields(fields, split).Parsed?
    ensures Get(ParseFields(fields, split).def, l) == Expected(l, LastValue(fields, l, split))
  {
    if fields == [] {
      assert Get(DefaultDef(), l) == Expected(l, None);
    } else {
      var init := fields[..|fields| - 1];
      var last := fields[|fields| - 1];
      var d := ParseFields(init, split).def;
      ParseFieldsLastWins(init, split, l);
      ApplyFieldMeaning(d, last, split);
    }
  }

  /** The lines `load_module_defs` hands on: every non-empty one, in order. */
  function NonEmpty(lines: seq<string>): (r: seq<string>)
    ensures forall k :: 0 <= k < |r| ==> r[k] != []
  {
    if lines == [] then []
    else NonEmpty(lines[..|lines| - 1]) + (if lines[|lines| - 1] == [] then [] else [lines[|lines| - 1]])
  }

  /** The definitions the lines add, and the first rejection, which stops the load. */
  datatype Load = Load(defs: seq<ModuleDef>, failure: Option<DefError>)

  function LoadDefs(lines: seq<string>, split: (string, char) -> seq<string>): Load
  {
    if lines == [] then Load([], None)
    else
      var before := LoadDefs(lines[..|lines| - 1], split);
      var line := lines[|lines| - 1];
      if before.failure.Some? || line == [] then before
      else match ParseModuleDef(line, ',', split)
        case Rejected(e) => Load(before.defs, Some(e))
        case Parsed(d) => Load(before.defs + [d], None)
  }

  /**
   * A load with no rejection adds one definition per non-empty line, in
   * line order, each the parse of its line with `,` as the delimiter.
   */
  lemma {:induction false} LoadDefsOnePerLine(lines: seq<string>, split: (string, char) -> seq<string>)
    requires LoadDefs(lines, split).failure.None?
    ensures |LoadDefs(lines, split).defs| == |NonEmpty(lines)|
    ensures forall k :: 0 <= k < |NonEmpty(lines)| ==>
      ParseModuleDef(NonEmpty(lines)[k], ',', split) == Parsed(LoadDefs(lines, split).defs[k])
  {
    if lines != [] {
      var init := lines[..|lines| - 1];
      LoadDefsOnePerLine(init, split);
    }
  }

  /** The field loop of `add_module_def`: applies the fields in order, stopping at the first rejection. */
  method ApplyFields(fields: seq<string>, split: (string, char) -> seq<string>) returns (r: Parse)
    ensures r == ParseFields(fields, split)
  {
    var def := DefaultDef();
    var i := 0;
    while i < |fields|
      invariant 0 <= i <= |fields|
      invariant ParseFields(fields[..i], split) == Parsed(def)
    {
      assert fields[..i + 1][..i] == fields[..i];
      var p := ApplyField(def, fields[i], split);
      if p.Rejected? {
        RejectedSticks(fields, i + 1, split);
        return p;
      }
      def := p.def;
      i := i + 1;
    }
    assert fields[..i] == fields;
    r := Parsed(def);
  }

  /** The global `mod_defs`. */
  class Registry {
    var modDefs: seq<ModuleDef>

    constructor ()
      ensures modDefs == []
    {
      modDefs := [];
    }

    /**
     * `add_module_def`: parses a `label=value` list and appends exactly one
     * definition, or raises `invalid_value` and changes nothing.
     */
    method AddModuleDef(desc: string, delimiter: char, split: (string, char) -> seq<string>) returns (r: Parse)
      modifies this
      ensures r == ParseModuleDef(desc, delimiter, split)
      ensures r.Parsed? ==> modDefs == old(modDefs) + [r.def]
      ensures r.Rejected? ==> modDefs == old(modDefs)
    {
      r := ApplyFields(split(desc, delimiter), split);
      if r.Parsed? {
        modDefs := modDefs + [r.def];
      }
    }

    /**
     * `load_module_defs(istream)`: adds the definition of every non-empty
     * line, in order, until a line is rejected.
     */
    method LoadModuleDefs(lines: seq<string>, split: (string, char) -> seq<string>) returns (failure: Option<DefError>)
      modifies this
      ensures failure == LoadDefs(lines, split).failure
      ensures modDefs == old(modDefs) + LoadDefs(lines, split).defs
    {
      var i := 0;
      failure := None;
      while i < |lines|
        invariant 0 <= i <= |lines|
        invariant LoadDefs(lines[..i], split).failure.None?
        invariant modDefs == old(modDefs) + LoadDefs(lines[..i], split).defs
      {
        assert lines[..i + 1][..i] == lines[..i];
        if lines[i] != [] {
          var r := AddModuleDef(lines[i], ',', split);
          if r.Rejected? {
            LoadStops(lines, i + 1, split);
            return Some(r.error);
          }
        }
        i := i + 1;
      }
      assert lines[..i] == lines;
    }
  }

  /** Once a field is rejected the description is rejected with that reason. */
  lemma {:induction false} RejectedSticks(fields: seq<string>, i: nat, split: (string, char) -> seq<string>)
    requires 0 < i <= |fields| && ParseFields(fields[..i], split).Rejected?
    ensures ParseFields(fields, split) == ParseFields(fields[..i], split)
    decreases |fields| - i
  {
    if i < |fields| {
      assert fields[..i + 1][..i] == fields[..i];
      RejectedSticks(fields, i + 1, split);
    } else {
      assert fields[..i] == fields;
    }
  }

  /** Once a line is rejected the load adds nothing more. */
  lemma {:induction false} LoadStops(lines: seq<string>, i: nat, split: (string, char) -> seq<string>)
    requires 0 < i <= |lines| && LoadDefs(lines[..i], split).failure.Some?
    ensures LoadDefs(lines, split) == LoadDefs(lines[..i], split)
    decreases |lines| - i
  {
    if i < |lines| {
      assert lines[..i + 1][..i] == lines[..i];
      LoadStops(lines, i + 1, split);
    } else {
      assert lines[..i] == lines;
    }
  }

  // ---------------------------------------------------------------------
  // Variable defaults
  // ---------------------------------------------------------------------

  /** The first value of a variable and its dirty flag. */
  datatype VarValue = VarValue(value: bv32, dirty: bool)

  /** The module variables and every channel's variables. */
  datatype Vars = Vars(moduleVars: seq<VarValue>, channelVars: seq<seq<VarValue>>)

  /** The first position of `c` in `s`, or `|s|` (`find` returning `npos`). */
  function Find(s: string, c: char): (r: nat)
    ensures r <= |s| && (r < |s| ==> s[r] == c)
    ensures forall k :: 0 <= k < r ==> s[k] != c
  {
    if s == [] then 0 else if s[0] == c then 0 else 1 + Find(s[1..], c)
  }

  /** `s.substr(0, s.find(c))`: `s` up to, not including, its first `c`. */
  function Before(s: string, c: char): (r: string)
    ensures r <= s && c !in r
    ensures |r| < |s| ==> s[|r|] == c
  {
    s[..Find(s, c)]
  }

  /** The variable indices are in range for every variable table. */
  ghost predicate Indexed(vars: Vars, moduleIndex: map<string, nat>, channelIndex: map<string, nat>)
  {
    && (forall l :: l in moduleIndex ==> moduleIndex[l] < |vars.moduleVars|)
    && (forall l, c :: l in channelIndex && 0 <= c < |vars.channelVars| ==> channelIndex[l] < |vars.channelVars[c]|)
  }

  /** Two variable tables of the same shape. */
  ghost predicate SameShape(a: Vars, b: Vars)
  {
    |a.moduleVars| == |b.moduleVars| && |a.channelVars| == |b.channelVars|
    && forall c :: 0 <= c < |a.channelVars| ==> |a.channelVars[c]| == |b.channelVars[c]|
  }

  /** Every channel's variable `index` set to `v`. */
  function SetEveryChannel(channels: seq<seq<VarValue>>, index: nat, v: VarValue): (r: seq<seq<VarValue>>)
    requires forall c :: 0 <= c < |channels| ==> index < |channels[c]|
    ensures |r| == |channels| && forall c :: 0 <= c < |r| ==> r[c] == channels[c][index := v]
  {
    seq(|channels|, c requires 0 <= c < |channels| => channels[c][index := v])
  }

  /**
   * One line of `load_var_defaults`: text from `#` on is dropped; a
   * non-empty line is trimmed and split at `=`; with exactly two parts the
   * value is cut at `(` and, when the label names a module or channel
   * variable, read by `stoul` (which may throw) and stored with its dirty
   * flag set. Every other line changes nothing.
   */
  function ApplyVarLine(vars: Vars, line: string, trim: string -> string, split: (string, char) -> seq<string>,
                        moduleIndex: map<string, nat>, channelIndex: map<string, nat>): (r: Result<Vars>)
    requires Indexed(vars, moduleIndex, channelIndex)
    ensures r.Ok? ==> SameShape(vars, r.value) && Indexed(r.value, moduleIndex, channelIndex)
    ensures r.Err? ==> r.code == StdException
  {
    var text := Before(line, '#');
    if text == [] then Ok(vars)
    else
      var lv := split(trim(text), '=');
      if |lv| != 2 then Ok(vars)
      else
        var value := Before(lv[1], '(');
        if lv[0] in moduleIndex then
          match Stoul(value)
          case Err(c) => Err(c)
          case Ok(n) => Ok(vars.(moduleVars := vars.moduleVars[moduleIndex[lv[0]] := VarValue(Fixture.ToValueType(n), true)]))
        else if lv[0] in channelIndex then
          match Stoul(value)
          case Err(c) => Err(c)
          case Ok(n) => Ok(vars.(channelVars := SetEveryChannel(vars.channelVars, channelIndex[lv[0]], VarValue(Fixture.ToValueType(n), true))))
        else Ok(vars)
  }

  /** The tables after the lines, and the outcome: the first throw stops the load, earlier lines keep their effect. */
  function LoadVars(vars: Vars, lines: seq<string>, trim: string -> string, split: (string, char) -> seq<string>,
                    moduleIndex: map<string, nat>, channelIndex: map<string, nat>): (r: (Vars, Outcome))
    requires Indexed(vars, moduleIndex, channelIndex)
    ensures SameShape(vars, r.0) && Indexed(r.0, moduleIndex, channelIndex)
    ensures r.1 == Pass || r.1 == Fail(StdException)
  {
    if lines == [] then (vars, Pass)
    else
      var (before, o) := LoadVars(vars, lines[..|lines| - 1], trim, split, moduleIndex, channelIndex);
      if o.Fail? then (before, o)
      else match ApplyVarLine(before, lines[|lines| - 1], trim, split, moduleIndex, channelIndex)
        case Err(c) => (before, Fail(c))
        case Ok(after) => (after, Pass)
  }

  /** A line whose first character starts a comment changes nothing. */
  lemma CommentLineIgnored(vars: Vars, line: string, trim: string -> string, split: (string, char) -> seq<string>,
                           moduleIndex: map<string, nat>, channelIndex: map<string, nat>)
    requires Indexed(vars, moduleIndex, channelIndex)
    requires |line| > 0 && line[0] == '#'
    ensures ApplyVarLine(vars, line, trim, split, moduleIndex, channelIndex) == Ok(vars)
  {
    assert Find(line, '#') == 0;
  }

  /**
   * The footprint of one line on the tables: a module variable changes only
   * its own entry, a channel variable only its entry in each channel, and a
   * changed entry is marked dirty.
   */
  lemma VarLineEffect(vars: Vars, line: string, trim: string -> string, split: (string, char) -> seq<string>,
                      moduleIndex: map<string, nat>, channelIndex: map<string, nat>)
    requires Indexed(vars, moduleIndex, channelIndex)
    requires ApplyVarLine(vars, line, trim, split, moduleIndex, channelIndex).Ok?
    ensures var after := ApplyVarLine(vars, line, trim, split, moduleIndex, channelIndex).value;
      && (forall i :: 0 <= i < |vars.moduleVars| && after.moduleVars[i] != vars.moduleVars[i] ==>
            exists name :: name in moduleIndex && moduleIndex[name] == i)
      && (after.channelVars != vars.channelVars ==> after.moduleVars == vars.moduleVars)
      && (forall c, i :: (0 <= c < |vars.channelVars| && 0 <= i < |vars.channelVars[c]|
            && after.channelVars[c][i] != vars.channelVars[c][i]) ==>
            after.channelVars[c][i].dirty && exists name :: name in channelIndex && channelIndex[name] == i)
      && (forall i :: 0 <= i < |vars.moduleVars| && after.moduleVars[i] != vars.moduleVars[i] ==> after.moduleVars[i].dirty)
  {
  }

  /** What a line of `load_var_defaults` names: nothing, or a module or channel variable and its value text. */
  datatype Target = Ignored | ModuleVar(index: nat, value: string) | ChannelVar(index: nat, value: string)

  /**
   * How `load_var_defaults` reads a line: the text before `#`, trimmed and
   * split at `=`; with exactly two parts, a module variable's label wins
   * over a channel variable's, and the value is cut at `(`.
   */
  function LineTarget(line: string, trim: string -> string, split: (string, char) -> seq<string>,
                      moduleIndex: map<string, nat>, channelIndex: map<string, nat>): (t: Target)
    ensures var text := Before(line, '#');
            var lv := split(trim(text), '=');
            && (t.Ignored? <==> text == [] || |lv| != 2 || (lv[0] !in moduleIndex && lv[0] !in channelIndex))
            && (t.ModuleVar? <==> text != [] && |lv| == 2 && lv[0] in moduleIndex)
            && (t.ModuleVar? ==> t.index == moduleIndex[lv[0]] && t.value == Before(lv[1], '('))
            && (t.ChannelVar? ==> t.index == channelIndex[lv[0]] && t.value == Before(lv[1], '('))
  {
    var text := Before(line, '#');
    var lv := split(trim(text), '=');
    if text == [] || |lv| != 2 then Ignored
    else if lv[0] in moduleIndex then ModuleVar(moduleIndex[lv[0]], Before(lv[1], '('))
    else if lv[0] in channelIndex then ChannelVar(channelIndex[lv[0]], Before(lv[1], '('))
    else Ignored
  }

  /** The entry a value text stores: what `stoul` read, as a 32-bit value, marked dirty. */
  function Stored(n: nat): VarValue
  {
    VarValue(Fixture.ToValueType(n), true)
  }

  /**
   * What one line does: an ignored line (empty before `#`, not exactly one
   * `=`, or an unknown label) leaves the tables as they are; a module
   * variable's line stores the value in that entry alone; a channel
   * variable's line stores it in that entry of every channel and nothing
   * else; either throws exactly when `stoul` rejects the value.
   */
  lemma VarLineMeaning(vars: Vars, line: string, trim: string -> string, split: (string, char) -> seq<string>,
                       moduleIndex: map<string, nat>, channelIndex: map<string, nat>)
    requires Indexed(vars, moduleIndex, channelIndex)
    ensures var t := LineTarget(line, trim, split, moduleIndex, channelIndex);
            var r := ApplyVarLine(vars, line, trim, split, moduleIndex, channelIndex);
            && (t.Ignored? ==> r == Ok(vars))
            && (!t.Ignored? ==> (r.Err? <==> Stoul(t.value).Err?))
            && (t.ModuleVar? && r.Ok? ==>
                  && t.index < |vars.moduleVars|
                  && r.value.moduleVars == vars.moduleVars[t.index := Stored(Stoul(t.value).value)]
                  && r.value.channelVars == vars.channelVars)
            && (t.ChannelVar? && r.Ok? ==>
                  && r.value.moduleVars == vars.moduleVars
                  && |r.value.channelVars| == |vars.channelVars|
                  && forall c :: 0 <= c < |vars.channelVars| ==>
                       t.index < |vars.channelVars[c]|
                       && r.value.channelVars[c] == vars.channelVars[c][t.index := Stored(Stoul(t.value).value)])
  {
  }

  /** The value text of the last line that names module variable `i`, if any does. */
  function LastModuleValue(lines: seq<string>, trim: string -> string, split: (string, char) -> seq<string>,
                           moduleIndex: map<string, nat>, channelIndex: map<string, nat>, i: nat): Option<string>
  {
    if lines == [] then None
    else match LineTarget(lines[|lines| - 1], trim, split, moduleIndex, channelIndex)
      case ModuleVar(j, v) => if j == i then Some(v) else LastModuleValue(lines[..|lines| - 1], trim, split, moduleIndex, channelIndex, i)
      case _ => LastModuleValue(lines[..|lines| - 1], trim, split, moduleIndex, channelIndex, i)
  }

  /** The value text of the last line that names channel variable `i`, if any does. */
  function LastChannelValue(lines: seq<string>, trim: string -> string, split: (string, char) -> seq<string>,
                            moduleIndex: map<string, nat>, channelIndex: map<string, nat>, i: nat): Option<string>
  {
    if lines == [] then None
    else match LineTarget(lines[|lines| - 1], trim, split, moduleIndex, channelIndex)
      case ChannelVar(j, v) => if j == i then Some(v) else LastChannelValue(lines[..|lines| - 1], trim, split, moduleIndex, channelIndex, i)
      case _ => LastChannelValue(lines[..|lines| - 1], trim, split, moduleIndex, channelIndex, i)
  }

  /**
   * After a load that throws nothing, each module variable holds the value
   * of the last line naming it (read by `stoul`, marked dirty), and a
   * variable no line names keeps its entry.
   */
  lemma {:induction false} LoadVarsModuleLastWins(vars: Vars, lines: seq<string>, trim: string -> string,
                                                  split: (string, char) -> seq<string>,
                                                  moduleIndex: map<string, nat>, channelIndex: map<string, nat>, i: nat)
    requires Indexed(vars, moduleIndex, channelIndex) && i < |vars.moduleVars|
    requires LoadVars(vars, lines, trim, split, moduleIndex, channelIndex).1 == Pass
    ensures var after := LoadVars(vars, lines, trim, split, moduleIndex, channelIndex).0;
            var last := LastModuleValue(lines, trim, split, moduleIndex, channelIndex, i);
            && (last.None? ==> after.moduleVars[i] == vars.moduleVars[i])
            && (last.Some? ==> Stoul(last.value).Ok? && after.moduleVars[i] == Stored(Stoul(last.value).value))
  {
    if lines != [] {
      var init, line := lines[..|lines| - 1], lines[|lines| - 1];
      LoadVarsModuleLastWins(vars, init, trim, split, moduleIndex, channelIndex, i);
      var before := LoadVars(vars, init, trim, split, moduleIndex, channelIndex).0;
      VarLineMeaning(before, line, trim, split, moduleIndex, channelIndex);
    }
  }

  /**
   * After a load that throws nothing, every channel's entry of a channel
   * variable holds the value of the last line naming it, and a variable no
   * line names keeps its entries.
   */
  lemma {:induction false} LoadVarsChannelLastWins(vars: Vars, lines: seq<string>, trim: string -> string,
                                                   split: (string, char) -> seq<string>,
                                                   moduleIndex: map<string, nat>, channelIndex: map<string, nat>,
                                                   c: nat, i: nat)
    requires Indexed(vars, moduleIndex, channelIndex) && c < |vars.channelVars| && i < |vars.channelVars[c]|
    requires LoadVars(vars, lines, trim, split, moduleIndex, channelIndex).1 == Pass
    ensures var after := LoadVars(vars, lines, trim, split, moduleIndex, channelIndex).0;
            var last := LastChannelValue(lines, trim, split, moduleIndex, channelIndex, i);
            && (last.None? ==> after.channelVars[c][i] == vars.channelVars[c][i])
            && (last.Some? ==> Stoul(last.value).Ok? && after.channelVars[c][i] == Stored(Stoul(last.value).value))
  {
    if lines != [] {
      var init, line := lines[..|lines| - 1], lines[|lines| - 1];
      LoadVarsChannelLastWins(vars, init, trim, split, moduleIndex, channelIndex, c, i);
      var before := LoadVars(vars, init, trim, split, moduleIndex, channelIndex).0;
      VarLineMeaning(before, line, trim, split, moduleIndex, channelIndex);
    }
  }

  // ---------------------------------------------------------------------
  // The simulated module
  // ---------------------------------------------------------------------

  /** The hardware configuration `open` gives every channel. */
  datatype Config = Config(adcBits: nat, adcMsps: nat, adcClkDiv: nat, fpgaClkMhz: nat)

  /** A definition's channel configuration: the FPGA clock is the ADC rate over the divider. */
  function ConfigOf(d: ModuleDef): (c: Config)
    requires d.adcClkDiv != 0
    ensures c.adcBits == d.adcBits && c.adcMsps == d.adcMsps && c.adcClkDiv == d.adcClkDiv
    ensures c.fpgaClkMhz * d.adcClkDiv <= d.adcMsps < (c.fpgaClkMhz + 1) * d.adcClkDiv
  {
    Config(d.adcBits, d.adcMsps, d.adcClkDiv, d.adcMsps / d.adcClkDiv)
  }

  /** `std::vector::resize(n, x)`: keeps the first `n` entries and pads with `x`. */
  function Resize(s: seq<Config>, n: nat, x: Config): (r: seq<Config>)
    ensures |r| == n
    ensures forall i :: 0 <= i < n ==> r[i] == if i < |s| then s[i] else x
  {
    seq(n, i requires 0 <= i < n => if i < |s| then s[i] else x)
  }

  /** The first definition with channels for `device`, the one `open` uses. */
  function FirstMatch(defs: seq<ModuleDef>, device: nat): (r: Option<nat>)
    ensures r.Some? ==> r.value < |defs| && defs[r.value].numChannels != 0 && defs[r.value].deviceNumber == device
    ensures r.Some? ==> forall k :: 0 <= k < r.value ==> !(defs[k].numChannels != 0 && defs[k].deviceNumber == device)
    ensures r.None? ==> forall k :: 0 <= k < |defs| ==> !(defs[k].numChannels != 0 && defs[k].deviceNumber == device)
  {
    if defs == [] then None
    else if defs[0].numChannels != 0 && defs[0].deviceNumber == device then Some(0)
    else match FirstMatch(defs[1..], device)
      case None => None
      case Some(k) => Some(k + 1)
  }

  /** The load flags of a simulated module. */
  datatype Flags = Flags(comms: bool, fippi: bool, dsp: bool, online: bool)

  /** `boot`'s effect on the flags: requested loads are set, none cleared, and online is all three loaded. */
  function BootFlags(f: Flags, bootComms: bool, bootFippi: bool, bootDsp: bool): (r: Flags)
    ensures (f.comms ==> r.comms) && (f.fippi ==> r.fippi) && (f.dsp ==> r.dsp)
    ensures (bootComms ==> r.comms) && (bootFippi ==> r.fippi) && (bootDsp ==> r.dsp)
    ensures r.online <==> r.comms && r.fippi && r.dsp
  {
    var comms := f.comms || bootComms;
    var fippi := f.fippi || bootFippi;
    var dsp := f.dsp || bootDsp;
    Flags(comms, fippi, dsp, comms && fippi && dsp)
  }

  /** Booting only sets what was asked: a load flag is set afterwards iff it was before or was requested. */
  lemma BootFlagsExactly(f: Flags, bootComms: bool, bootFippi: bool, bootDsp: bool)
    ensures BootFlags(f, bootComms, bootFippi, bootDsp).comms == (f.comms || bootComms)
    ensures BootFlags(f, bootComms, bootFippi, bootDsp).fippi == (f.fippi || bootFippi)
    ensures BootFlags(f, bootComms, bootFippi, bootDsp).dsp == (f.dsp || bootDsp)
    ensures BootFlags(BootFlags(f, bootComms, bootFippi, bootDsp), bootComms, bootFippi, bootDsp)
            == BootFlags(f, bootComms, bootFippi, bootDsp)
  {
  }

  /** A simulated module. */
  /**
   * What `init_values` leaves: nothing is loaded without a defaults file, a
   * file that cannot be opened throws `file_read_failure`, and otherwise its
   * lines are loaded.
   */
  function InitValuesOf(varDefaults: string, vars: Vars, readable: bool, lines: seq<string>, trim: string -> string,
                        split: (string, char) -> seq<string>,
                        moduleIndex: map<string, nat>, channelIndex: map<string, nat>): (r: (Vars, Outcome))
    requires Indexed(vars, moduleIndex, channelIndex)
    ensures varDefaults == [] ==> r == (vars, Pass)
    ensures varDefaults != [] && !readable ==> r == (vars, Fail(FileReadFailure))
    ensures r.1 == Pass || r.1 == Fail(FileReadFailure) || r.1 == Fail(StdException)
    ensures SameShape(vars, r.0)
  {
    if varDefaults == [] then (vars, Pass)
    else if !readable then (vars, Fail(FileReadFailure))
    else LoadVars(vars, lines, trim, split, moduleIndex, channelIndex)
  }

  class SimModule {
    /** `vmaddr != nullptr`: the module's memory is mapped. */
    var mapped: bool
    var present: bool
    var flags: Flags
    var deviceNumber: nat
    var slot: nat
    var revision: nat
    var eepromFormat: nat
    var serialNum: nat
    var numChannels: nat
    var configs: seq<Config>
    var varDefaults: string
    var vars: Vars

    constructor ()
      ensures !mapped && !present && flags == Flags(false, false, false, false)
      ensures configs == [] && varDefaults == [] && vars == Vars([], [])
    {
      mapped, present := false, false;
      flags := Flags(false, false, false, false);
      deviceNumber, slot, revision, eepromFormat, serialNum, numChannels := 0, 0, 0, 0, 0, 0;
      configs, varDefaults := [], [];
      vars := Vars([], []);
    }

    /**
     * `open`: a mapped module throws `module_already_open`; otherwise the
     * first definition with channels for the device sets the module up, and
     * none throws `module_initialize_failure`. The FPGA clock is the ADC rate
     * over the clock divider, which the definition must not leave 0.
     */
    method Open(device: nat, defs: seq<ModuleDef>) returns (o: Outcome)
      requires FirstMatch(defs, device).Some? ==> defs[FirstMatch(defs, device).value].adcClkDiv != 0
      modifies this
      ensures old(mapped) ==> o == Fail(ModuleAlreadyOpen) && unchanged(this)
      ensures !old(mapped) && FirstMatch(defs, device).None? ==> o == Fail(ModuleInitializeFailure) && unchanged(this)
      ensures !old(mapped) && FirstMatch(defs, device).Some? ==>
        var d := defs[FirstMatch(defs, device).value];
        && o == Pass && mapped && present && deviceNumber == device
        && slot == d.slot && revision == d.revision && eepromFormat == d.eepromFormat
        && serialNum == d.serialNum && numChannels == d.numChannels && varDefaults == d.varDefaults
        && configs == Resize(old(configs), d.numChannels, ConfigOf(d))
        && flags == old(flags) && vars == old(vars)
    {
      if mapped {
        return Fail(ModuleAlreadyOpen);
      }
      var found := FindDef(defs, device);
      if found.None? {
        return Fail(ModuleInitializeFailure);
      }
      SetUp(device, defs[found.value]);
      return Pass;
    }

    /** The module `open` maps: the definition's identity and one configuration per channel. */
    method SetUp(device: nat, d: ModuleDef)
      requires d.adcClkDiv != 0
      modifies this
      ensures mapped && present && deviceNumber == device
      ensures slot == d.slot && revision == d.revision && eepromFormat == d.eepromFormat
      ensures serialNum == d.serialNum && numChannels == d.numChannels && varDefaults == d.varDefaults
      ensures configs == Resize(old(configs), d.numChannels, ConfigOf(d))
      ensures flags == old(flags) && vars == old(vars)
    {
      var resized := Resize(configs, d.numChannels, ConfigOf(d));
      mapped, deviceNumber := true, device;
      slot, revision, eepromFormat, serialNum, numChannels := d.slot, d.revision, d.eepromFormat, d.serialNum, d.numChannels;
      configs, varDefaults, present := resized, d.varDefaults, true;
    }

    /** The search of `open`: the first definition with channels for `device`. */
    static method FindDef(defs: seq<ModuleDef>, device: nat) returns (r: Option<nat>)
      ensures r == FirstMatch(defs, device)
    {
      var k := 0;
      while k < |defs|
        invariant 0 <= k <= |defs|
        invariant forall j :: 0 <= j < k ==> !(defs[j].numChannels != 0 && defs[j].deviceNumber == device)
      {
        var d := defs[k];
        if d.numChannels != 0 && device == d.deviceNumber {
          return Some(k);
        }
        k := k + 1;
      }
      return None;
    }

    /** `close`: the module is no longer present and its memory is unmapped. */
    method Close()
      modifies this`present, this`mapped
      ensures !present && !mapped
    {
      present := false;
      mapped := false;
    }

    /**
     * `probe`: clears every load flag, reloads the variables, then sets all
     * three load flags and online. A throw from `init_values` leaves the
     * flags cleared.
     */
    method Probe(readable: bool, lines: seq<string>, trim: string -> string, split: (string, char) -> seq<string>,
                 moduleIndex: map<string, nat>, channelIndex: map<string, nat>) returns (o: Outcome)
      requires Indexed(vars, moduleIndex, channelIndex)
      modifies this`flags, this`vars
      ensures o == InitValuesOf(varDefaults, old(vars), readable, lines, trim, split, moduleIndex, channelIndex).1
      ensures vars == InitValuesOf(varDefaults, old(vars), readable, lines, trim, split, moduleIndex, channelIndex).0
      ensures flags == if o.Pass? then Flags(true, true, true, true) else Flags(false, false, false, false)
    {
      flags := flags.(online := false, dsp := false, fippi := false, comms := false);
      o := InitValues(readable, lines, trim, split, moduleIndex, channelIndex);
      if o.Fail? {
        return;
      }
      flags := flags.(online := true, dsp := true, fippi := true, comms := true);
    }

    /**
     * `boot`: sets the requested load flags and reloads the variables, then
     * online iff all three are loaded. A throw from `init_values` leaves the
     * requested flags set and online cleared.
     */
    method Boot(bootComms: bool, bootFippi: bool, bootDsp: bool,
                readable: bool, lines: seq<string>, trim: string -> string, split: (string, char) -> seq<string>,
                moduleIndex: map<string, nat>, channelIndex: map<string, nat>) returns (o: Outcome)
      requires Indexed(vars, moduleIndex, channelIndex)
      modifies this`flags, this`vars
      ensures o == InitValuesOf(varDefaults, old(vars), readable, lines, trim, split, moduleIndex, channelIndex).1
      ensures vars == InitValuesOf(varDefaults, old(vars), readable, lines, trim, split, moduleIndex, channelIndex).0
      ensures flags == if o.Pass? then BootFlags(old(flags), bootComms, bootFippi, bootDsp)
                       else BootFlags(old(flags), bootComms, bootFippi, bootDsp).(online := false)
    {
      flags := RequestLoads(flags, bootComms, bootFippi, bootDsp);
      o := InitValues(readable, lines, trim, split, moduleIndex, channelIndex);
      if o.Fail? {
        return;
      }
      flags := flags.(online := flags.comms && flags.fippi && flags.dsp);
    }

    /** The first part of `boot`: offline, and each requested load flag set. */
    static method RequestLoads(f0: Flags, bootComms: bool, bootFippi: bool, bootDsp: bool) returns (f: Flags)
      ensures f == BootFlags(f0, bootComms, bootFippi, bootDsp).(online := false)
    {
      f := f0.(online := false);
      if bootComms {
        f := f.(comms := true);
      }
      if bootFippi {
        f := f.(fippi := true);
      }
      if bootDsp {
        f := f.(dsp := true);
      }
    }

    /**
     * The simulator's `init_values`: with a variable defaults file named,
     * the file is loaded; `readable` says whether it could be opened and
     * `lines` are its lines.
     */
    method InitValues(readable: bool, lines: seq<string>, trim: string -> string, split: (string, char) -> seq<string>,
                      moduleIndex: map<string, nat>, channelIndex: map<string, nat>) returns (o: Outcome)
      requires Indexed(vars, moduleIndex, channelIndex)
      modifies this`vars
      ensures (vars, o) == InitValuesOf(varDefaults, old(vars), readable, lines, trim, split, moduleIndex, channelIndex)
    {
      if varDefaults == [] {
        return Pass;
      }
      if !readable {
        return Fail(FileReadFailure);
      }
      o := LoadVarDefaults(lines, trim, split, moduleIndex, channelIndex);
    }

    /** `load_var_defaults(istream)`: applies each line in turn; a `stoul` that throws ends the load. */
    method LoadVarDefaults(lines: seq<string>, trim: string -> string, split: (string, char) -> seq<string>,
                           moduleIndex: map<string, nat>, channelIndex: map<string, nat>) returns (o: Outcome)
      requires Indexed(vars, moduleIndex, channelIndex)
      modifies this`vars
      ensures (vars, o) == LoadVars(old(vars), lines, trim, split, moduleIndex, channelIndex)
    {
      ghost var v0 := vars;
      var i := 0;
      while i < |lines|
        invariant 0 <= i <= |lines|
        invariant LoadVars(v0, lines[..i], trim, split, moduleIndex, channelIndex) == (vars, Pass)
      {
        var r := LoadLine(v0, lines, i, trim, split, moduleIndex, channelIndex);
        if r.Fail? {
          return r;
        }
        i := i + 1;
      }
      assert lines[..i] == lines;
      o := Pass;
    }

    /** Line `i` of `load_var_defaults`, with the lines before it loaded. */
    method LoadLine(ghost v0: Vars, lines: seq<string>, i: nat, trim: string -> string,
                    split: (string, char) -> seq<string>,
                    moduleIndex: map<string, nat>, channelIndex: map<string, nat>) returns (r: Outcome)
      requires Indexed(v0, moduleIndex, channelIndex) && i < |lines|
      requires LoadVars(v0, lines[..i], trim, split, moduleIndex, channelIndex) == (vars, Pass)
      modifies this`vars
      ensures r.Pass? ==> LoadVars(v0, lines[..i + 1], trim, split, moduleIndex, channelIndex) == (vars, Pass)
      ensures r.Fail? ==> LoadVars(v0, lines, trim, split, moduleIndex, channelIndex) == (vars, r)
    {
      LoadVarsStep(v0, lines, i, trim, split, moduleIndex, channelIndex);
      r := ApplyLine(lines[i], trim, split, moduleIndex, channelIndex);
      if r.Fail? {
        LoadVarsStops(v0, lines, i + 1, trim, split, moduleIndex, channelIndex);
      }
    }

    /** One line of `load_var_defaults`, updating the tables in place. */
    method ApplyLine(line: string, trim: string -> string, split: (string, char) -> seq<string>,
                     moduleIndex: map<string, nat>, channelIndex: map<string, nat>) returns (o: Outcome)
      requires Indexed(vars, moduleIndex, channelIndex)
      modifies this`vars
      ensures var r := ApplyVarLine(old(vars), line, trim, split, moduleIndex, channelIndex);
        (r.Ok? ==> o == Pass && vars == r.value) && (r.Err? ==> o == Fail(r.code) && vars == old(vars))
    {
      var text := line[..Find(line, '#')];
      if text == [] {
        return Pass;
      }
      var lv := split(trim(text), '=');
      if |lv| != 2 {
        return Pass;
      }
      var value := lv[1][..Find(lv[1], '(')];
      if lv[0] in moduleIndex {
        var n := Stoul(value);
        if n.Err? {
          return Fail(n.code);
        }
        vars := vars.(moduleVars := vars.moduleVars[moduleIndex[lv[0]] := VarValue(Fixture.ToValueType(n.value), true)]);
      } else if lv[0] in channelIndex {
        var n := Stoul(value);
        if n.Err? {
          return Fail(n.code);
        }
        var index := channelIndex[lv[0]];
        var v := VarValue(Fixture.ToValueType(n.value), true);
        var c := 0;
        while c < |vars.channelVars|
          invariant 0 <= c <= |vars.channelVars| == |old(vars).channelVars|
          invariant vars.moduleVars == old(vars).moduleVars
          invariant forall k :: 0 <= k < |vars.channelVars| ==>
            vars.channelVars[k] == if k < c then old(vars).channelVars[k][index := v] else old(vars).channelVars[k]
        {
          vars := vars.(channelVars := vars.channelVars[c := vars.channelVars[c][index := v]]);
          c := c + 1;
        }
      }
      o := Pass;
    }
  }

  /** One more line of a load that has not thrown yet applies that line to the tables so far. */
  lemma LoadVarsStep(vars: Vars, lines: seq<string>, i: nat, trim: string -> string,
                     split: (string, char) -> seq<string>,
                     moduleIndex: map<string, nat>, channelIndex: map<string, nat>)
    requires Indexed(vars, moduleIndex, channelIndex)
    requires i < |lines| && LoadVars(vars, lines[..i], trim, split, moduleIndex, channelIndex).1 == Pass
    ensures var before := LoadVars(vars, lines[..i], trim, split, moduleIndex, channelIndex).0;
      && Indexed(before, moduleIndex, channelIndex)
      && LoadVars(vars, lines[..i + 1], trim, split, moduleIndex, channelIndex)
         == match ApplyVarLine(before, lines[i], trim, split, moduleIndex, channelIndex)
            case Err(c) => (before, Fail(c))
            case Ok(after) => (after, Pass)
  {
    assert lines[..i + 1][..i] == lines[..i];
  }

  /** Once a line throws, later lines are not read. */
  lemma {:induction false} LoadVarsStops(vars: Vars, lines: seq<string>, i: nat, trim: string -> string,
                                         split: (string, char) -> seq<string>,
                                         moduleIndex: map<string, nat>, channelIndex: map<string, nat>)
    requires Indexed(vars, moduleIndex, channelIndex)
    requires 0 < i <= |lines| && LoadVars(vars, lines[..i], trim, split, moduleIndex, channelIndex).1.Fail?
    ensures LoadVars(vars, lines, trim, split, moduleIndex, channelIndex) == LoadVars(vars, lines[..i], trim, split, moduleIndex, channelIndex)
    decreases |lines| - i
  {
    if i < |lines| {
      assert lines[..i + 1][..i] == lines[..i];
      LoadVarsStops(vars, lines, i + 1, trim, split, moduleIndex, channelIndex);
    } else {
      assert lines[..i] == lines;
    }
  }
}
