/**
 * A driver session (class Driver in ivi/ivi.py, with the DriverOperation
 * state it inherits): the option flags, the session lifecycle
 * (initialize, close), the attribute-validity cache, the two message
 * queues and the I/O helpers every instrument driver calls.
 *
 * The interface object is held as a value (see InstrumentIo); opening a
 * backend on a resource string is a parameter of Initialize, since the
 * backend libraries are not part of this model.
 */
module Session {
  import opened Errors
  import opened Utf8
  import IeeeBlock
  import Decimal
  import Sequences
  import AttributeCache
  import opened ResourceLocator
  import opened InstrumentIo

  /** A Python value given as an option. */
  datatype OptValue = BoolVal(b: bool) | IntVal(i: int) | StrVal(s: string) | NoneVal

  /** `bool(val)`. */
  predicate Truthy(v: OptValue) {
    match v
    case BoolVal(b) => b
    case IntVal(i) => i != 0
    case StrVal(s) => s != ""
    case NoneVal => false
  }

  /** The options initialize accepts, as the fields they set. */
  datatype Settings = Settings(
    rangeCheck: bool, queryInstrStatus: bool, cache: bool, simulate: bool,
    recordCoercions: bool, interchangeCheck: bool, driverSetup: OptValue,
    preferPyvisa: bool)

  /** The eight option names initialize recognises. */
  datatype OptionName =
    RangeCheckOpt | QueryInstrStatusOpt | CacheOpt | SimulateOpt
    | RecordCoercionsOpt | InterchangeCheckOpt | DriverSetupOpt | PreferPyvisaOpt

  /** The keyword each option is given by. */
  function Keyword(o: OptionName): string {
    match o
    case RangeCheckOpt => "range_check"
    case QueryInstrStatusOpt => "query_instr_status"
    case CacheOpt => "cache"
    case SimulateOpt => "simulate"
    case RecordCoercionsOpt => "record_coercions"
    case InterchangeCheckOpt => "interchange_check"
    case DriverSetupOpt => "driver_setup"
    case PreferPyvisaOpt => "prefer_pyvisa"
  }

  /** The `if op == ... elif ...` dispatch of the option loop. */
  function OptionNamed(key: string): (r: Option<OptionName>)
    ensures r.Some? ==> Keyword(r.value) == key
  {
    if key == "range_check" then Some(RangeCheckOpt)
    else if key == "query_instr_status" then Some(QueryInstrStatusOpt)
    else if key == "cache" then Some(CacheOpt)
    else if key == "simulate" then Some(SimulateOpt)
    else if key == "record_coercions" then Some(RecordCoercionsOpt)
    else if key == "interchange_check" then Some(InterchangeCheckOpt)
    else if key == "driver_setup" then Some(DriverSetupOpt)
    else if key == "prefer_pyvisa" then Some(PreferPyvisaOpt)
    else None
  }

  /** Every option is recognised by its own keyword, and so the keywords
      accepted are exactly the eight. */
  lemma OptionNamedComplete(o: OptionName)
    ensures OptionNamed(Keyword(o)) == Some(o)
  {
    match o
    case RangeCheckOpt =>
    case QueryInstrStatusOpt =>
    case CacheOpt =>
    case SimulateOpt =>
    case RecordCoercionsOpt =>
    case InterchangeCheckOpt =>
    case DriverSetupOpt =>
    case PreferPyvisaOpt =>
  }

  /** A key is accepted exactly when it is the keyword of an option. */
  predicate Known(key: string) {
    exists o :: Keyword(o) == key
  }

  lemma KnownIffNamed(key: string)
    ensures Known(key) <==> OptionNamed(key).Some?
  {
    if Known(key) {
      var o :| Keyword(o) == key;
      OptionNamedComplete(o);
    }
  }

  /** The `kw` dict Driver's constructor passes on to initialize: the
      keyword arguments whose key is one of the eight options.  The others
      go to DriverOperation's constructor, which ignores them. */
  function ConstructorOptions(opts: seq<(string, OptValue)>): (kw: seq<(string, OptValue)>)
    ensures |kw| <= |opts|
    ensures forall i :: 0 <= i < |kw| ==> Known(kw[i].0)
    ensures forall p :: p in kw <==> p in opts && Known(p.0)
  {
    if |opts| == 0 then []
    else
      var n := |opts| - 1;
      ConstructorOptions(opts[..n]) + if Known(opts[n].0) then [opts[n]] else []
  }

  /** `Driver(foo=1)`: an unrecognised keyword alone leaves nothing to
      pass on, so the driver is not initialised. */
  lemma UnknownKeywordDropped(v: OptValue)
    ensures ConstructorOptions([("foo", v)]) == []
  {
    KnownIffNamed("foo");
  }

  /** The field an option sets, `bool(val)` for all but driver_setup. */
  function Assign(s: Settings, o: OptionName, v: OptValue): (r: Settings)
    ensures o != SimulateOpt ==> r.simulate == s.simulate
    ensures o == SimulateOpt ==> r == s.(simulate := Truthy(v))
    ensures o != CacheOpt ==> r.cache == s.cache
    ensures o == DriverSetupOpt ==> r == s.(driverSetup := v)
    ensures o != DriverSetupOpt ==> r.driverSetup == s.driverSetup
  {
    match o
    case RangeCheckOpt => s.(rangeCheck := Truthy(v))
    case QueryInstrStatusOpt => s.(queryInstrStatus := Truthy(v))
    case CacheOpt => s.(cache := Truthy(v))
    case SimulateOpt => s.(simulate := Truthy(v))
    case RecordCoercionsOpt => s.(recordCoercions := Truthy(v))
    case InterchangeCheckOpt => s.(interchangeCheck := Truthy(v))
    case DriverSetupOpt => s.(driverSetup := v)
    case PreferPyvisaOpt => s.(preferPyvisa := Truthy(v))
  }

  /** One pass of the option loop in initialize. */
  function ApplyOption(s: Settings, key: string, v: OptValue): (r: Result<Settings>)
    ensures r.Err? <==> OptionNamed(key).None?
    ensures r.Err? ==> r.error == UnknownOption
  {
    match OptionNamed(key)
    case None => Err(UnknownOption)
    case Some(o) => Ok(Assign(s, o, v))
  }

  /** The option loop of initialize over the keyword arguments in order: the
      settings it leaves behind and whether it raised.  It stops at the first
      unknown key, with the options before it already applied. */
  function DecodeOptions(s: Settings, opts: seq<(string, OptValue)>): (r: (Settings, Outcome))
    ensures r.1.Fail? ==> r.1.error == UnknownOption
    decreases |opts|
  {
    if |opts| == 0 then (s, Pass)
    else
      var n := |opts| - 1;
      var prev := DecodeOptions(s, opts[..n]);
      if prev.1.Fail? then prev
      else match ApplyOption(prev.0, opts[n].0, opts[n].1)
        case Err(e) => (prev.0, Fail(e))
        case Ok(t) => (t, Pass)
  }

  /** One more option after a failure changes nothing. */
  lemma StepAfterFailure(s: Settings, opts: seq<(string, OptValue)>)
    requires |opts| > 0 && DecodeOptions(s, opts[..|opts| - 1]).1.Fail?
    ensures DecodeOptions(s, opts) == DecodeOptions(s, opts[..|opts| - 1])
  {
  }

  /** An unknown key after a clean run stops the loop with the settings so far. */
  lemma StepUnknown(s: Settings, opts: seq<(string, OptValue)>)
    requires |opts| > 0 && DecodeOptions(s, opts[..|opts| - 1]).1.Pass?
    requires !Known(opts[|opts| - 1].0)
    ensures DecodeOptions(s, opts) == (DecodeOptions(s, opts[..|opts| - 1]).0, Fail(UnknownOption))
  {
    KnownIffNamed(opts[|opts| - 1].0);
  }

  /** A known key after a clean run keeps it clean. */
  lemma StepKnown(s: Settings, opts: seq<(string, OptValue)>)
    requires |opts| > 0 && DecodeOptions(s, opts[..|opts| - 1]).1.Pass?
    requires Known(opts[|opts| - 1].0)
    ensures DecodeOptions(s, opts).1.Pass?
  {
    KnownIffNamed(opts[|opts| - 1].0);
  }

  /** The options fail exactly when some key is unknown ... */
  lemma {:induction false} OptionsFail(s: Settings, opts: seq<(string, OptValue)>)
    ensures DecodeOptions(s, opts).1.Fail? <==> exists i :: 0 <= i < |opts| && !Known(opts[i].0)
    decreases |opts|
  {
    if |opts| > 0 {
      var n := |opts| - 1;
      var p := opts[..n];
      OptionsFail(s, p);
      assert forall i :: 0 <= i < n ==> p[i] == opts[i];
      if DecodeOptions(s, p).1.Fail? {
        StepAfterFailure(s, opts);
        var i :| 0 <= i < n && !Known(p[i].0);
        assert !Known(opts[i].0);
      } else if Known(opts[n].0) {
        StepKnown(s, opts);
        assert forall i :: 0 <= i < |opts| ==> Known(opts[i].0);
      } else {
        StepUnknown(s, opts);
      }
    }
  }

  /** ... and then the settings are those left by the options before the
      first unknown key. */
  lemma {:induction false} OptionsStopAtUnknown(s: Settings, opts: seq<(string, OptValue)>, u: nat)
    requires u < |opts| && !Known(opts[u].0)
    requires forall i :: 0 <= i < u ==> Known(opts[i].0)
    ensures DecodeOptions(s, opts) == (DecodeOptions(s, opts[..u]).0, Fail(UnknownOption))
    decreases |opts|
  {
    var n := |opts| - 1;
    var p := opts[..n];
    if n == u {
      OptionsFail(s, p);
      assert forall i :: 0 <= i < u ==> p[i] == opts[i];
      StepUnknown(s, opts);
    } else {
      assert p[u] == opts[u];
      assert forall i :: 0 <= i < u ==> p[i] == opts[i];
      OptionsStopAtUnknown(s, p, u);
      assert p[..u] == opts[..u];
      StepAfterFailure(s, opts);
    }
  }

  /** initialize sets the simulate flag directly: unlike the property setter
      it can switch simulation off again. */
  lemma OptionsLeaveSimulation(s: Settings, v: OptValue)
    requires s.simulate && !Truthy(v)
    ensures DecodeOptions(s, [("simulate", v)]) == (s.(simulate := false), Pass)
  {
    var opts := [("simulate", v)];
    assert opts[..0] == [];
    OptionNamedComplete(SimulateOpt);
  }

  /** Options that do not name `simulate` leave it alone. */
  lemma {:induction false} SimulateUntouched(s: Settings, opts: seq<(string, OptValue)>)
    requires forall i :: 0 <= i < |opts| ==> opts[i].0 != "simulate"
    ensures DecodeOptions(s, opts).0.simulate == s.simulate
    decreases |opts|
  {
    if |opts| > 0 {
      var n := |opts| - 1;
      assert forall i :: 0 <= i < n ==> opts[..n][i] == opts[i];
      SimulateUntouched(s, opts[..n]);
    }
  }

  /** The class of an object passed as the resource. */
  datatype InstanceClass = Vxi11Instrument | UsbtmcInstrument | OtherClass

  /** An object passed as the resource: its class, whether that class itself
      defines `read_raw` and `write_raw`, and the interface it would be. */
  datatype Instance = Instance(cls: InstanceClass, definesRawMethods: bool, iface: Interface)

  /** The `resource` argument of initialize. */
  datatype ResourceArg = NoResource | DescriptorArg(s: string) | InstanceArg(obj: Instance)

  /** An object initialize takes as it is. */
  predicate Usable(o: Instance, available: set<Backend>) {
    (o.cls == Vxi11Instrument && Vxi11 in available)
    || (o.cls == UsbtmcInstrument && Usbtmc in available)
    || o.definesRawMethods
  }

  /** What the resource step of initialize does to the interface. */
  datatype Attachment = Keep | Attach(iface: Interface, descriptor: Option<string>)

  /** The resource step of initialize, once the options are decoded. */
  function ResourceStep(simulate: bool, resource: ResourceArg, prefer: bool,
                        available: set<Backend>, open: (Backend, string) -> Interface)
    : (r: Result<Attachment>)
    ensures simulate ==> r == Ok(Keep)
    ensures !simulate && resource.NoResource? ==> r == Err(IOError("No resource specified!"))
    ensures !simulate && resource.DescriptorArg? ==>
      var b := StringBackend(resource.s, prefer, available);
      (r.Ok? <==> b.Ok?) && (b.Ok? ==> r.value == Attach(open(b.value, resource.s), Some(resource.s)))
    ensures !simulate && resource.InstanceArg? ==>
      r == if Usable(resource.obj, available) then Ok(Attach(resource.obj.iface, None))
           else Err(IOError("Invalid resource"))
    ensures r.Err? ==> r.error.IOError?
  {
    if simulate then Ok(Keep)
    else match resource
      case NoResource => Err(IOError("No resource specified!"))
      case DescriptorArg(s) =>
        (match StringBackend(s, prefer, available)
         case Ok(b) => Ok(Attach(open(b, s), Some(s)))
         case Err(e) => Err(e))
      case InstanceArg(o) =>
        if Usable(o, available) then Ok(Attach(o.iface, None)) else Err(IOError("Invalid resource"))
  }

  /** The prefix `_write_ieee_block` puts before the block. */
  datatype BlockPrefix = NoPrefix | TextPrefix(s: string) | BytesPrefix(b: seq<byte>)

  function PrefixBytes(pre: BlockPrefix): (r: seq<byte>)
    ensures pre.TextPrefix? ==> r == Encode(pre.s)
    ensures pre.BytesPrefix? ==> r == pre.b
    ensures pre.NoPrefix? ==> r == []
  {
    match pre
    case NoPrefix => []
    case TextPrefix(s) => Encode(s)
    case BytesPrefix(b) => b
  }

  /** The instrument finds the payload of what `_write_ieee_block` sends,
      whatever prefix precedes it (provided the prefix holds no `#`),
      exactly when the payload is below 10^8 bytes. */
  lemma WrittenBlockDecodes(pre: BlockPrefix, data: seq<byte>)
    requires IeeeBlock.HASH !in PrefixBytes(pre)
    ensures IeeeBlock.HASH in PrefixBytes(pre) + IeeeBlock.BuildIeeeBlock(data)
    ensures IeeeBlock.Decoded(PrefixBytes(pre) + IeeeBlock.BuildIeeeBlock(data)) == Ok(data)
        <==> |data| < Decimal.Pow10(8)
  {
    IeeeBlock.RoundTripExactly(data);
    IeeeBlock.NoiseIgnored(PrefixBytes(pre), IeeeBlock.BuildIeeeBlock(data));
  }

  /** With the corrected builder the payload is found for every size. */
  lemma SizedBlockDecodes(pre: BlockPrefix, data: seq<byte>)
    requires IeeeBlock.HASH !in PrefixBytes(pre)
    ensures IeeeBlock.HASH in PrefixBytes(pre) + IeeeBlock.BuildIeeeBlockSized(data)
    ensures IeeeBlock.Decoded(PrefixBytes(pre) + IeeeBlock.BuildIeeeBlockSized(data)) == Ok(data)
  {
    IeeeBlock.SizedRoundTrip(data);
    IeeeBlock.NoiseIgnored(PrefixBytes(pre), IeeeBlock.BuildIeeeBlockSized(data));
  }

  class Driver {
    /** The `_driver_operation_*` option attributes and `_prefer_pyvisa`. */
    var options: Settings
    var ioResourceDescriptor: string
    var initialized: bool
    /** `_driver_operation_cache_valid`: validity by cache key. */
    var cacheValid: map<string, bool>
    var coercionRecords: seq<string>
    var interchangeWarnings: seq<string>
    /** `_interface`: None, or the interface object. */
    var iface: Option<Interface>
    /** Every call made on an interface object, oldest first. */
    var trace: seq<Call>

    /** The test every I/O helper makes before it touches the interface. */
    predicate Ready()
      reads this`initialized, this`iface
    {
      initialized && iface.Some?
    }

    /** Not simulating and ready: the helpers reach the interface. */
    predicate Live()
      reads this`options, this`initialized, this`iface
    {
      !options.simulate && Ready()
    }

    /** The reply `_ask(c, num)` gives in the current state. */
    function AskReply(c: Command, num: int): Result<Reply>
      reads this`options, this`initialized, this`iface
    {
      if options.simulate then Ok(Str(""))
      else if !Ready() then Err(NotInitialized)
      else InstrumentIo.Ask(iface.value.caps, c, num, iface.value.pending).res
    }

    /** The interface `_ask(c, num)` leaves behind: its queue advanced past
        the reply when the session is live, untouched otherwise. */
    function AskIface(c: Command, num: int): Option<Interface>
      reads this`options, this`initialized, this`iface
    {
      if Live() then Some(iface.value.(pending := InstrumentIo.Ask(iface.value.caps, c, num, iface.value.pending).rest))
      else iface
    }

    /** The trace after `_ask(c, num)`: the calls it makes when the session
        is live, none otherwise. */
    function AskTrace(c: Command, num: int): seq<Call>
      reads this`options, this`initialized, this`iface, this`trace
    {
      if Live() then trace + InstrumentIo.Ask(iface.value.caps, c, num, iface.value.pending).calls
      else trace
    }

    /** DriverOperation's defaults, as Driver.__init__ leaves them before it
        calls initialize; `prefer_pyvisa` comes from the module setting. */
    constructor (globalPreferPyvisa: bool)
      ensures options == Settings(true, false, true, false, false, false, StrVal(""), globalPreferPyvisa)
      ensures !initialized && iface.None? && cacheValid == map[] && trace == []
      ensures ioResourceDescriptor == "" && coercionRecords == [] && interchangeWarnings == []
    {
      options := Settings(true, false, true, false, false, false, StrVal(""), globalPreferPyvisa);
      ioResourceDescriptor := "";
      initialized := false;
      cacheValid := map[];
      coercionRecords := [];
      interchangeWarnings := [];
      iface := None;
      trace := [];
    }

    /** Driver(resource, **options): the defaults, then initialize with the
        recognised options when a resource or any of them is given; other
        keyword arguments are dropped without an error. */
    static method Create(globalPreferPyvisa: bool, resource: ResourceArg, opts: seq<(string, OptValue)>,
                         available: set<Backend>, open: (Backend, string) -> Interface)
      returns (d: Driver, r: Outcome)
      ensures fresh(d)
      ensures d.trace == [] && d.coercionRecords == [] && d.interchangeWarnings == []
      ensures var kw := ConstructorOptions(opts);
        resource.NoResource? && |kw| == 0 ==>
          r == Pass && d.options == Settings(true, false, true, false, false, false, StrVal(""), globalPreferPyvisa)
          && !d.initialized && d.iface.None? && d.ioResourceDescriptor == "" && d.cacheValid == map[]
      ensures var kw := ConstructorOptions(opts);
        !(resource.NoResource? && |kw| == 0) ==>
          d.options == DecodeOptions(Settings(true, false, true, false, false, false, StrVal(""), globalPreferPyvisa), kw).0
          && d.cacheValid == map[]
          && var step := ResourceStep(d.options.simulate, resource, d.options.preferPyvisa, available, open);
          (step.Err? ==> r == Fail(step.error) && !d.initialized && d.iface.None? && d.ioResourceDescriptor == "")
          && (step == Ok(Keep) ==> r == Pass && d.initialized && d.iface.None? && d.ioResourceDescriptor == "")
          && (step.Ok? && step.value.Attach? ==>
                r == Pass && d.initialized && d.iface == Some(step.value.iface)
                && d.ioResourceDescriptor == (if step.value.descriptor.Some? then step.value.descriptor.value else ""))
      ensures r.Fail? ==> r.error.IOError?
    {
      d := new Driver(globalPreferPyvisa);
      r := Pass;
      var kw := ConstructorOptions(opts);
      if !resource.NoResource? || |kw| > 0 {
        OptionsFail(d.options, kw);
        r := d.Initialize(resource, kw, available, open);
      }
    }

    /** The `simulate` property setter: turning simulation off once it is on
        raises SimulationStateException. */
    method SetSimulate(value: OptValue) returns (r: Outcome)
      modifies this`options
      ensures old(options.simulate) ==> options.simulate
      ensures old(options.simulate) && !Truthy(value) ==> r == Fail(SimulationState) && options == old(options)
      ensures !(old(options.simulate) && !Truthy(value)) ==>
        r == Pass && options == old(options).(simulate := Truthy(value))
    {
      var v := Truthy(value);
      if options.simulate && !v {
        return Fail(SimulationState);
      }
      options := options.(simulate := v);
      r := Pass;
    }

    /** initialize: decode the options, then attach the resource (a string
        through the backend preference order, an object as it is), clear the
        cache and mark the session initialised. */
    method Initialize(resource: ResourceArg, opts: seq<(string, OptValue)>,
                      available: set<Backend>, open: (Backend, string) -> Interface)
      returns (r: Outcome)
      modifies this`options, this`iface, this`ioResourceDescriptor, this`cacheValid, this`initialized
      ensures options == DecodeOptions(old(options), opts).0
      ensures r.Pass? ==> initialized && cacheValid == map[]
      ensures r.Fail? ==>
        (iface == old(iface) && initialized == old(initialized)
         && cacheValid == old(cacheValid) && ioResourceDescriptor == old(ioResourceDescriptor))
      ensures DecodeOptions(old(options), opts).1.Fail? ==> r == Fail(UnknownOption)
      ensures DecodeOptions(old(options), opts).1.Pass? ==>
        var step := ResourceStep(options.simulate, resource, options.preferPyvisa, available, open);
        (step.Err? ==> r == Fail(step.error))
        && (step.Ok? ==> r == Pass)
        && (step == Ok(Keep) ==> iface == old(iface) && ioResourceDescriptor == old(ioResourceDescriptor))
        && (step.Ok? && step.value.Attach? ==>
              (iface == Some(step.value.iface)
               && ioResourceDescriptor == (if step.value.descriptor.Some? then step.value.descriptor.value
                                           else old(ioResourceDescriptor))))
    {
      r := ApplyOptions(opts);
      if r.Fail? {
        return;
      }
      var step := ResourceStep(options.simulate, resource, options.preferPyvisa, available, open);
      if step.Err? {
        return Fail(step.error);
      }
      if step.value.Attach? {
        iface := Some(step.value.iface);
        if step.value.descriptor.Some? {
          ioResourceDescriptor := step.value.descriptor.value;
        }
      }
      InvalidateAllAttributes();
      initialized := true;
    }

    /** The option loop of initialize: each recognised key sets its field,
        and the first unrecognised one raises. */
    method ApplyOptions(opts: seq<(string, OptValue)>) returns (r: Outcome)
      modifies this`options
      ensures (options, r) == DecodeOptions(old(options), opts)
    {
      var i := 0;
      while i < |opts|
        invariant 0 <= i <= |opts|
        invariant DecodeOptions(old(options), opts[..i]) == (options, Pass)
      {
        assert opts[..i + 1][..i] == opts[..i];
        var name := OptionNamed(opts[i].0);
        if name.None? {
          OptionsFailPersist(old(options), opts, i + 1);
          return Fail(UnknownOption);
        }
        options := Assign(options, name.value, opts[i].1);
        i := i + 1;
      }
      assert opts[..i] == opts;
      r := Pass;
    }

    /** close: the interface's own `close` is called when it has one (any
        exception it raises is swallowed); the session ends uninitialised
        and without an interface in every case. */
    method Close()
      modifies this`iface, this`initialized, this`trace
      ensures iface.None? && !initialized
      ensures trace == old(trace) + if old(iface).Some? && CloseOp in old(iface).value.caps then [CloseCall] else []
    {
      if iface.Some? && CloseOp in iface.value.caps {
        trace := trace + [CloseCall];
      }
      iface := None;
      initialized := false;
    }

    /** `next_coercion_record`: pops the last record, or returns "" when
        there is none. */
    method NextCoercionRecord() returns (r: string)
      modifies this`coercionRecords
      ensures old(coercionRecords) == [] ==> r == "" && coercionRecords == []
      ensures old(coercionRecords) != [] ==> old(coercionRecords) == coercionRecords + [r]
    {
      if |coercionRecords| > 0 {
        r := coercionRecords[|coercionRecords| - 1];
        coercionRecords := coercionRecords[..|coercionRecords| - 1];
      } else {
        r := "";
      }
    }

    /** `next_interchange_warning`: pops the last warning, or returns "". */
    method NextInterchangeWarning() returns (r: string)
      modifies this`interchangeWarnings
      ensures old(interchangeWarnings) == [] ==> r == "" && interchangeWarnings == []
      ensures old(interchangeWarnings) != [] ==> old(interchangeWarnings) == interchangeWarnings + [r]
    {
      if |interchangeWarnings| > 0 {
        r := interchangeWarnings[|interchangeWarnings| - 1];
        interchangeWarnings := interchangeWarnings[..|interchangeWarnings| - 1];
      } else {
        r := "";
      }
    }

    /** `clear_interchange_warnings`. */
    method ClearInterchangeWarnings()
      modifies this`interchangeWarnings
      ensures interchangeWarnings == []
    {
      interchangeWarnings := [];
    }

    /** `_get_cache_valid(tag, index, skip_disable)`. */
    method GetCacheValid(tag: string, index: int, skipDisable: bool) returns (r: Result<bool>)
      modifies this`cacheValid
      ensures (r, cacheValid) == AttributeCache.Lookup(old(cacheValid), options.cache, tag, index, skipDisable)
    {
      if !skipDisable && !options.cache {
        return Ok(false);
      }
      var t := AttributeCache.CacheTag(tag);
      if t.Err? {
        return Err(t.error);
      }
      var key := AttributeCache.CacheKey(t.value, index);
      if key in cacheValid {
        r := Ok(cacheValid[key]);
      } else {
        cacheValid := cacheValid[key := false];
        r := Ok(false);
      }
    }

    /** `_set_cache_valid(valid, tag, index)`. */
    method SetCacheValid(valid: bool, tag: string, index: int) returns (r: Outcome)
      modifies this`cacheValid
      ensures var s := AttributeCache.Store(old(cacheValid), valid, tag, index);
        (s.Err? ==> r == Fail(IndexError) && cacheValid == old(cacheValid))
        && (s.Ok? ==> r == Pass && cacheValid == s.value)
    {
      var t := AttributeCache.CacheTag(tag);
      if t.Err? {
        return Fail(t.error);
      }
      cacheValid := cacheValid[AttributeCache.CacheKey(t.value, index) := valid];
      r := Pass;
    }

    /** `_driver_operation_invalidate_all_attributes`. */
    method InvalidateAllAttributes()
      modifies this`cacheValid
      ensures cacheValid == map[]
    {
      cacheValid := map[];
    }

    /** `_write_raw(data)`. */
    method WriteRaw(data: seq<byte>) returns (r: Outcome)
      modifies this`trace
      ensures options.simulate ==> r == Pass && trace == old(trace)
      ensures !options.simulate && !Ready() ==> r == Fail(NotInitialized) && trace == old(trace)
      ensures Live() ==> r == Pass && trace == old(trace) + [WriteRawCall(data)]
    {
      if options.simulate {
        return Pass;
      }
      if !Ready() {
        return Fail(NotInitialized);
      }
      trace := trace + [WriteRawCall(data)];
      r := Pass;
    }

    /** `_read_raw(num)`. */
    method ReadRaw(num: int) returns (r: Result<seq<byte>>)
      modifies this`iface, this`trace
      ensures options.simulate ==> r == Ok([]) && iface == old(iface) && trace == old(trace)
      ensures !options.simulate && !old(Ready()) ==>
        r == Err(NotInitialized) && iface == old(iface) && trace == old(trace)
      ensures old(Live()) ==>
        var p := old(iface).value.pending;
        r == Ok(Take(p, num)) && iface == Some(old(iface).value.(pending := Drop(p, num)))
        && trace == old(trace) + [ReadRawCall(num)]
    {
      if options.simulate {
        return Ok([]);
      }
      if !Ready() {
        return Err(NotInitialized);
      }
      var p := iface.value.pending;
      iface := Some(iface.value.(pending := Drop(p, num)));
      trace := trace + [ReadRawCall(num)];
      r := Ok(Take(p, num));
    }

    /** `_ask_raw(data, num)`: the interface's `ask_raw`, or else `_write_raw`
        followed by `_read_raw`. */
    method AskRaw(data: seq<byte>, num: int) returns (r: Result<seq<byte>>)
      modifies this`iface, this`trace
      ensures options.simulate ==> r == Ok([]) && iface == old(iface) && trace == old(trace)
      ensures !options.simulate && !old(Ready()) ==>
        r == Err(NotInitialized) && iface == old(iface) && trace == old(trace)
      ensures old(Live()) ==>
        var p := old(iface).value.pending;
        r == Ok(Take(p, num)) && iface == Some(old(iface).value.(pending := Drop(p, num)))
        && trace == old(trace) + if AskRawOp in old(iface).value.caps then [AskRawCall(data, num)]
                                 else [WriteRawCall(data), ReadRawCall(num)]
    {
      if options.simulate {
        return Ok([]);
      }
      if !Ready() {
        return Err(NotInitialized);
      }
      if AskRawOp in iface.value.caps {
        var p := iface.value.pending;
        iface := Some(iface.value.(pending := Drop(p, num)));
        trace := trace + [AskRawCall(data, num)];
        return Ok(Take(p, num));
      }
      var w := WriteRaw(data);
      r := ReadRaw(num);
    }

    /** `_write(c)`: the interface's `write`, or else each string of a list
        in turn, each through `_write_raw` as UTF-8. */
    method Write(c: Command) returns (r: Outcome)
      modifies this`trace
      ensures options.simulate ==> r == Pass && trace == old(trace)
      ensures !options.simulate && !Ready() ==> r == Fail(NotInitialized) && trace == old(trace)
      ensures Live() ==> r == Pass && trace == old(trace) + WriteCalls(iface.value.caps, c)
      decreases c
    {
      if options.simulate {
        return Pass;
      }
      if !Ready() {
        return Fail(NotInitialized);
      }
      if WriteOp in iface.value.caps {
        trace := trace + [WriteCall(c)];
        return Pass;
      }
      match c
      case Text(s) =>
        r := WriteRaw(Encode(s));
      case Batch(items) =>
        var i := 0;
        while i < |items|
          invariant 0 <= i <= |items|
          invariant trace == old(trace) + RawWrites(LeavesOf(items[..i]))
        {
          r := Write(items[i]);
          assert items[..i + 1][..i] == items[..i];
          RawWritesConcat(LeavesOf(items[..i]), Leaves(items[i]));
          CallsAssoc(old(trace), RawWrites(LeavesOf(items[..i])), RawWrites(Leaves(items[i])));
          i := i + 1;
        }
        assert items[..i] == items;
        r := Pass;
    }

    /** `_read(num)`: the interface's `read`, or else `_read_raw` decoded as
        UTF-8 with trailing line terminators stripped. */
    method Read(num: int) returns (r: Result<string>)
      modifies this`iface, this`trace
      ensures options.simulate ==> r == Ok("") && iface == old(iface) && trace == old(trace)
      ensures !options.simulate && !old(Ready()) ==>
        r == Err(NotInitialized) && iface == old(iface) && trace == old(trace)
      ensures old(Live()) ==>
        var p := old(iface).value.pending;
        r == TextOf(Take(p, num)) && iface == Some(old(iface).value.(pending := Drop(p, num)))
        && trace == old(trace) + ReadCalls(old(iface).value.caps, num)
    {
      if options.simulate {
        return Ok("");
      }
      if !Ready() {
        return Err(NotInitialized);
      }
      if ReadOp in iface.value.caps {
        var p := iface.value.pending;
        iface := Some(iface.value.(pending := Drop(p, num)));
        trace := trace + [ReadCall(num)];
        return TextOf(Take(p, num));
      }
      var raw := ReadRaw(num);
      r := TextOf(raw.value);
    }

    /** `_ask(c, num)`: the interface's `ask`, or else write and read for a
        string and one ask per element, in order, for a list. */
    method Ask(c: Command, num: int) returns (r: Result<Reply>)
      modifies this`iface, this`trace
      ensures options.simulate ==> r == Ok(Str("")) && iface == old(iface) && trace == old(trace)
      ensures !options.simulate && !old(Ready()) ==>
        r == Err(NotInitialized) && iface == old(iface) && trace == old(trace)
      ensures old(Live()) ==>
        var x := InstrumentIo.Ask(old(iface).value.caps, c, num, old(iface).value.pending);
        r == x.res && iface == Some(old(iface).value.(pending := x.rest)) && trace == old(trace) + x.calls
      decreases c
    {
      if options.simulate {
        return Ok(Str(""));
      }
      if !Ready() {
        return Err(NotInitialized);
      }
      var caps, p := iface.value.caps, iface.value.pending;
      if AskOp in caps {
        var x := InstrumentIo.Ask(caps, c, num, p);
        iface := Some(iface.value.(pending := x.rest));
        trace := trace + [AskCall(c, num)];
        return x.res;
      }
      match c
      case Text(s) =>
        assert InstrumentIo.Ask(caps, c, num, p) == AskEmulated(caps, c, num, p);
        var w := Write(c);
        var t := Read(num);
        r := if t.Ok? then Ok(Str(t.value)) else Err(t.error);
      case Batch(items) =>
        assert InstrumentIo.Ask(caps, c, num, p) == AskAll(caps, items, num, p);
        r := AskEach(items, num);
    }

    /** The loop of the list case of `_ask`. */
    method AskEach(items: seq<Command>, num: int) returns (r: Result<Reply>)
      requires Live() && AskOp !in iface.value.caps
      modifies this`iface, this`trace
      ensures var x := AskAll(old(iface).value.caps, items, num, old(iface).value.pending);
        r == x.res && iface == Some(old(iface).value.(pending := x.rest)) && trace == old(trace) + x.calls
      decreases items, 1
    {
      ghost var i0, t0 := iface.value, trace;
      ghost var p0 := i0.pending;
      var replies: seq<Reply> := [];
      var i := 0;
      while i < |items|
        invariant 0 <= i <= |items|
        invariant var e := AskAll(i0.caps, items[..i], num, p0);
          e.res == Ok(List(replies)) && iface == Some(i0.(pending := e.rest)) && trace == t0 + e.calls
      {
        var y := AskNext(items, i, num, p0, t0);
        if y.Err? {
          AskAllStops(i0.caps, items, i + 1, num, p0);
          return y;
        }
        replies := replies + [y.value];
        i := i + 1;
      }
      assert items[..i] == items;
      r := Ok(List(replies));
    }

    /** One pass of that loop: the element after those already answered. */
    method AskNext(items: seq<Command>, i: nat, num: int, ghost p0: seq<byte>, ghost t0: seq<Call>)
      returns (y: Result<Reply>)
      requires i < |items| && Live() && AskOp !in iface.value.caps
      requires var e := AskAll(iface.value.caps, items[..i], num, p0);
        e.res.Ok? && iface.value.pending == e.rest && trace == t0 + e.calls
      modifies this`iface, this`trace
      ensures var e := AskAll(old(iface).value.caps, items[..i], num, p0);
        var e' := AskAll(old(iface).value.caps, items[..i + 1], num, p0);
        (y.Err? ==> e'.res == y)
        && (y.Ok? ==> e'.res == Ok(List(e.res.value.items + [y.value])))
        && iface == Some(old(iface).value.(pending := e'.rest)) && trace == t0 + e'.calls
      decreases items, 0
    {
      ghost var caps := iface.value.caps;
      ghost var e := AskAll(caps, items[..i], num, p0);
      ghost var x := InstrumentIo.Ask(caps, items[i], num, e.rest);
      AskAllNext(caps, items, i, num, p0);
      y := Ask(items[i], num);
      CallsAssoc(t0, e.calls, x.calls);
    }

    /** `_read_stb()`: the interface's `read_stb`, or else `*STB?` asked
        and the reply read as a decimal number. */
    method ReadStb() returns (r: Result<int>)
      modifies this`iface, this`trace
      ensures options.simulate ==> r == Ok(0) && iface == old(iface) && trace == old(trace)
      ensures !options.simulate && !old(Ready()) ==>
        r == Err(NotInitialized) && iface == old(iface) && trace == old(trace)
      ensures old(Live()) && ReadStbOp in old(iface).value.caps ==>
        r == Ok(old(iface).value.stb) && iface == old(iface) && trace == old(trace) + [ReadStbCall]
      ensures old(Live()) && ReadStbOp !in old(iface).value.caps ==>
        var x := InstrumentIo.Ask(old(iface).value.caps, Text("*STB?"), -1, old(iface).value.pending);
        r == StbFromReply(x.res)
        && iface == Some(old(iface).value.(pending := x.rest)) && trace == old(trace) + x.calls
    {
      if options.simulate {
        return Ok(0);
      }
      if !Ready() {
        return Err(NotInitialized);
      }
      if ReadStbOp in iface.value.caps {
        trace := trace + [ReadStbCall];
        return Ok(iface.value.stb);
      }
      var a := Ask(Text("*STB?"), -1);
      r := StbFromReply(a);
    }

    /** `_trigger()`.  Simulation does not return early here: an
        uninitialised session raises even when simulating, and the
        interface's `trigger` is called if there is one; only the `*TRG`
        fallback is suppressed by simulation. */
    method Trigger() returns (r: Outcome)
      modifies this`trace
      ensures !Ready() ==> r == Fail(NotInitialized) && trace == old(trace)
      ensures Ready() && TriggerOp in iface.value.caps ==> r == Pass && trace == old(trace) + [TriggerCall]
      ensures Ready() && TriggerOp !in iface.value.caps ==>
        r == Pass && trace == old(trace) + if options.simulate then [] else WriteCalls(iface.value.caps, Text("*TRG"))
    {
      if !Ready() {
        return Fail(NotInitialized);
      }
      if TriggerOp in iface.value.caps {
        trace := trace + [TriggerCall];
        return Pass;
      }
      r := Write(Text("*TRG"));
    }

    /** `_clear()`: as `_trigger`, with `clear` and `*CLS`. */
    method Clear() returns (r: Outcome)
      modifies this`trace
      ensures !Ready() ==> r == Fail(NotInitialized) && trace == old(trace)
      ensures Ready() && ClearOp in iface.value.caps ==> r == Pass && trace == old(trace) + [ClearCall]
      ensures Ready() && ClearOp !in iface.value.caps ==>
        r == Pass && trace == old(trace) + if options.simulate then [] else WriteCalls(iface.value.caps, Text("*CLS"))
    {
      if !Ready() {
        return Fail(NotInitialized);
      }
      if ClearOp in iface.value.caps {
        trace := trace + [ClearCall];
        return Pass;
      }
      r := Write(Text("*CLS"));
    }

    /** `_remote()`: the interface's `remote`; without one the
        AttributeError escapes. */
    method Remote() returns (r: Outcome)
      modifies this`trace
      ensures !Ready() ==> r == Fail(NotInitialized) && trace == old(trace)
      ensures Ready() && RemoteOp in iface.value.caps ==> r == Pass && trace == old(trace) + [RemoteCall]
      ensures Ready() && RemoteOp !in iface.value.caps ==> r == Fail(AttributeError) && trace == old(trace)
    {
      if !Ready() {
        return Fail(NotInitialized);
      }
      if RemoteOp !in iface.value.caps {
        return Fail(AttributeError);
      }
      trace := trace + [RemoteCall];
      r := Pass;
    }

    /** `_local()`: as `_remote`, with `local`. */
    method Local() returns (r: Outcome)
      modifies this`trace
      ensures !Ready() ==> r == Fail(NotInitialized) && trace == old(trace)
      ensures Ready() && LocalOp in iface.value.caps ==> r == Pass && trace == old(trace) + [LocalCall]
      ensures Ready() && LocalOp !in iface.value.caps ==> r == Fail(AttributeError) && trace == old(trace)
    {
      if !Ready() {
        return Fail(NotInitialized);
      }
      if LocalOp !in iface.value.caps {
        return Fail(AttributeError);
      }
      trace := trace + [LocalCall];
      r := Pass;
    }

    /** `_read_ieee_block()`.  The bytes queued must contain a `#` (or be
        none at all): otherwise the scan for it never ends. */
    method ReadIeeeBlock() returns (r: Result<seq<byte>>)
      requires Live() ==> |iface.value.pending| == 0 || IeeeBlock.HASH in iface.value.pending
      modifies this`iface, this`trace
      ensures options.simulate ==> r == Ok([]) && iface == old(iface) && trace == old(trace)
      ensures !options.simulate && !old(Ready()) ==>
        r == Err(NotInitialized) && iface == old(iface) && trace == old(trace)
      ensures old(Live()) ==>
        var x := InstrumentIo.ReadIeeeBlock(old(iface).value.pending);
        r == x.res && iface == Some(old(iface).value.(pending := x.rest)) && trace == old(trace) + x.calls
    {
      ghost var i0, t0 := iface, trace;
      var ch := ReadRaw(1);
      if ch.Err? {
        return Err(ch.error);
      }
      if |ch.value| == 0 {
        return Ok([]);
      }
      ghost var p0 := i0.value.pending;
      assert p0 == [ch.value[0]] + p0[1..];
      var k := ScanForHash(ch.value);
      CallsAssoc(t0, [ReadRawCall(1)], ReadsOfOne(k - 1));
      ReadsOfOneFirst(k);
      r := ReadRest();
      CallsAssoc(t0, ReadsOfOne(k), ReadAfterHash(p0[k..]).calls);
      StreamedRead(p0, k);
    }

    /** The `while ch != b'#'` loop of `_read_ieee_block`, entered with the
        first byte already read. */
    method ScanForHash(first: seq<byte>) returns (k: nat)
      requires Live() && |first| == 1
      requires var p := iface.value.pending; IeeeBlock.HASH in [first[0]] + p
      modifies this`iface, this`trace
      ensures var p := [first[0]] + old(iface).value.pending;
        k == Sequences.FirstIndex(p, IeeeBlock.HASH) + 1
        && iface == Some(old(iface).value.(pending := p[k..]))
        && trace == old(trace) + ReadsOfOne(k - 1)
    {
      ghost var i0, t0 := iface.value, trace;
      ghost var p0 := [first[0]] + i0.pending;
      var b := first;
      k := 1;
      while b != [IeeeBlock.HASH]
        invariant Live()
        invariant 1 <= k <= |p0| && b == [p0[k - 1]]
        invariant forall j :: 0 <= j < k - 1 ==> p0[j] != IeeeBlock.HASH
        invariant iface == Some(i0.(pending := p0[k..]))
        invariant trace == t0 + ReadsOfOne(k - 1)
        decreases |p0| - k
      {
        ScanStep(p0, k);
        var c := ReadRaw(1);
        b := c.value;
        k := k + 1;
      }
      Sequences.FirstIndexAt(p0, IeeeBlock.HASH, k - 1);
    }

    /** The part of `_read_ieee_block` after the `#`. */
    method ReadRest() returns (r: Result<seq<byte>>)
      requires Live()
      modifies this`iface, this`trace
      ensures var x := ReadAfterHash(old(iface).value.pending);
        r == x.res && iface == Some(old(iface).value.(pending := x.rest)) && trace == old(trace) + x.calls
    {
      ghost var q := iface.value.pending;
      var lc := ReadRaw(1);
      match IeeeBlock.ParseField(lc.value)
      case None =>
        r := Err(ValueError);
      case Some(l) =>
        if l > 0 {
          r := ReadPayloadOf(l);
          CallsAssoc(old(trace), [ReadRawCall(1)], ReadPayload(Drop(q, 1), l).calls);
        } else {
          var rest := ReadRaw(-1);
          r := Ok(rest.value);
          CallsAssoc(old(trace), [ReadRawCall(1)], [ReadRawCall(-1)]);
        }
    }

    /** `num = int(self._read_raw(l))` and `self._read_raw(num)`. */
    method ReadPayloadOf(l: nat) returns (r: Result<seq<byte>>)
      requires Live()
      modifies this`iface, this`trace
      ensures var x := ReadPayload(old(iface).value.pending, l);
        r == x.res && iface == Some(old(iface).value.(pending := x.rest)) && trace == old(trace) + x.calls
    {
      var nf := ReadRaw(l);
      match IeeeBlock.ParseField(nf.value)
      case None =>
        r := Err(ValueError);
      case Some(num) =>
        var data := ReadRaw(num);
        r := Ok(data.value);
        CallsAssoc(old(trace), [ReadRawCall(l)], [ReadRawCall(num)]);
    }

    /** `_ask_for_ieee_block(c)`: `_write(c)`, then `_read_ieee_block()`. */
    method AskForIeeeBlock(c: Command) returns (r: Result<seq<byte>>)
      requires Live() ==> |iface.value.pending| == 0 || IeeeBlock.HASH in iface.value.pending
      modifies this`iface, this`trace
      ensures options.simulate ==> r == Ok([]) && iface == old(iface) && trace == old(trace)
      ensures !options.simulate && !old(Ready()) ==>
        r == Err(NotInitialized) && iface == old(iface) && trace == old(trace)
      ensures old(Live()) ==>
        var x := InstrumentIo.ReadIeeeBlock(old(iface).value.pending);
        r == x.res && iface == Some(old(iface).value.(pending := x.rest))
        && trace == old(trace) + WriteCalls(old(iface).value.caps, c) + x.calls
    {
      var w := Write(c);
      if w.Fail? {
        return Err(w.error);
      }
      r := ReadIeeeBlock();
    }

    /** `_write_ieee_block(data, prefix)`: the prefix (a string as UTF-8,
        bytes as they are) followed by the block, in one `_write_raw`. */
    method WriteIeeeBlock(data: seq<byte>, prefix: BlockPrefix) returns (r: Outcome)
      modifies this`trace
      ensures options.simulate ==> r == Pass && trace == old(trace)
      ensures !options.simulate && !Ready() ==> r == Fail(NotInitialized) && trace == old(trace)
      ensures Live() ==>
        r == Pass && trace == old(trace) + [WriteRawCall(PrefixBytes(prefix) + IeeeBlock.BuildIeeeBlock(data))]
    {
      var block := PrefixBytes(prefix);
      block := block + IeeeBlock.BuildIeeeBlock(data);
      r := WriteRaw(block);
    }
  }

  /** One more single-byte read during the scan for `#`. */
  lemma ScanStep(p: seq<byte>, k: nat)
    requires 1 <= k < |p|
    ensures Take(p[k..], 1) == [p[k]] && Drop(p[k..], 1) == p[k + 1..]
    ensures ReadsOfOne(k) == ReadsOfOne(k - 1) + [ReadRawCall(1)]
  {
  }

  /** The streaming read of a non-empty queue: the single-byte reads up to
      and including the `#`, then the reads after it. */
  lemma StreamedRead(p: seq<byte>, k: nat)
    requires IeeeBlock.HASH in p && k == Sequences.FirstIndex(p, IeeeBlock.HASH) + 1
    ensures var y := ReadAfterHash(p[k..]);
      InstrumentIo.ReadIeeeBlock(p) == Exchange(y.res, y.rest, ReadsOfOne(k) + y.calls)
  {
  }

  /** The k single-byte reads of the scan for `#`, the first of them
      separated out. */
  lemma ReadsOfOneFirst(k: nat)
    requires k > 0
    ensures [ReadRawCall(1)] + ReadsOfOne(k - 1) == ReadsOfOne(k)
  {
  }

  /** Once one prefix of the options has failed, longer ones fail the same
      way. */
  lemma {:induction false} OptionsFailPersist(s: Settings, opts: seq<(string, OptValue)>, j: nat)
    requires j <= |opts| && DecodeOptions(s, opts[..j]).1.Fail?
    ensures DecodeOptions(s, opts) == DecodeOptions(s, opts[..j])
    decreases |opts| - j
  {
    if j < |opts| {
      assert opts[..j + 1][..j] == opts[..j];
      if j + 1 == |opts| {
        assert opts[..j + 1] == opts;
      } else {
        OptionsFailPersist(s, opts, j + 1);
      }
    } else {
      assert opts[..j] == opts;
    }
  }

  lemma CallsAssoc(a: seq<Call>, b: seq<Call>, c: seq<Call>)
    ensures a + b + c == a + (b + c)
  {
  }

  /** One more element of the list case of `_ask`, once the elements before
      it have been answered. */
  lemma AskAllNext(caps: set<Capability>, items: seq<Command>, i: nat, num: int, p: seq<byte>)
    requires i < |items| && AskAll(caps, items[..i], num, p).res.Ok?
    ensures var e := AskAll(caps, items[..i], num, p);
      var y := InstrumentIo.Ask(caps, items[i], num, e.rest);
      AskAll(caps, items[..i + 1], num, p)
        == Exchange(if y.res.Ok? then Ok(List(e.res.value.items + [y.res.value])) else Err(y.res.error),
                    y.rest, e.calls + y.calls)
  {
    assert items[..i + 1][..i] == items[..i];
  }

  /** Once a prefix of a list has failed to ask, the whole list fails the
      same way, with no further calls. */
  lemma {:induction false} AskAllStops(caps: set<Capability>, items: seq<Command>, j: nat, num: int, p: seq<byte>)
    requires j <= |items| && AskAll(caps, items[..j], num, p).res.Err?
    ensures AskAll(caps, items, num, p) == AskAll(caps, items[..j], num, p)
    decreases |items| - j
  {
    if j < |items| {
      assert items[..j + 1][..j] == items[..j];
      if j + 1 == |items| {
        assert items[..j + 1] == items;
      } else {
        AskAllStops(caps, items, j + 1, num, p);
      }
    } else {
      assert items[..j] == items;
    }
  }
}
