/**
 * The mapped enumeration attributes of the Tektronix MSO2000 driver
 * (ivi/tektronix/tektronixMSO2000.py): the acquisition type and the edge
 * trigger slope.  Each has a table from the driver's value to the word sent
 * to the instrument and a table from the instrument's (lower-cased) reply
 * back to the driver's value; the accessors go through the session's
 * attribute cache.
 */
module Mso2000 {
  import opened Errors
  import opened InstrumentIo
  import AttributeCache
  import ResourceLocator
  import opened Session

  /** `_trigger_set_map`, `_trigger_get_map`, `_acq_set_map`, `_acq_get_map`. */
  const TriggerSetMap: map<string, string> := map["positive" := "ris", "negative" := "fall", "either" := "either"]
  const TriggerGetMap: map<string, string> :=
    map["rise" := "positive", "ris" := "positive", "fall" := "negative", "either" := "either"]
  const AcqSetMap: map<string, string> := map["normal" := "sam", "average" := "ave"]
  const AcqGetMap: map<string, string> :=
    map["sam" := "normal", "sample" := "normal", "ave" := "average", "average" := "average"]

  /** One mapped attribute: its cache entry, the query that reads it, the
      command (less its argument) that sets it, and its two tables. */
  datatype Mapped = Mapped(name: string, query: string, command: string,
                           setMap: map<string, string>, getMap: map<string, string>)

  const Acquisition := Mapped("acquisition_type", ":acquire:mode?", ":acquire:mode ", AcqSetMap, AcqGetMap)
  const EdgeSlope := Mapped("trigger_edge_slope", ":trigger:a:edge:slope?", ":trigger:a:edge:slope ",
                            TriggerSetMap, TriggerGetMap)

  /** The names the accessors are called by, which the cache tag is taken from. */
  function Getter(a: Mapped): string { "_get_" + a.name }
  function Setter(a: Mapped): string { "_set_" + a.name }

  /** `str.lower()` on ASCII letters; other characters are kept. */
  function LowerChar(c: char): (l: char)
    ensures 'A' <= c <= 'Z' ==> l as int == c as int + 32
    ensures !('A' <= c <= 'Z') ==> l == c
  {
    if 'A' <= c <= 'Z' then (c as int + 32) as char else c
  }

  function Lower(s: string): (l: string)
    ensures |l| == |s| && forall i :: 0 <= i < |s| ==> l[i] == LowerChar(s[i])
  {
    if s == [] then [] else [LowerChar(s[0])] + Lower(s[1..])
  }

  predicate LowerAscii(s: string) {
    forall i :: 0 <= i < |s| ==> 'a' <= s[i] <= 'z'
  }

  /** `self._xxx_get_map[self._ask(query).lower()]`: a reply missing from the
      table raises KeyError; a failed ask passes its error on. */
  function Translate(reply: Result<Reply>, getMap: map<string, string>): (r: Result<string>)
    ensures r.Ok? <==> reply.Ok? && reply.value.Str? && Lower(reply.value.s) in getMap
    ensures r.Ok? ==> r.value == getMap[Lower(reply.value.s)]
    ensures reply.Err? ==> r == Err(reply.error)
    ensures reply.Ok? && reply.value.Str? && Lower(reply.value.s) !in getMap ==> r == Err(KeyError)
  {
    match reply
    case Err(e) => Err(e)
    case Ok(Str(s)) => if Lower(s) in getMap then Ok(getMap[Lower(s)]) else Err(KeyError)
    case Ok(List(_)) => Err(AttributeError)
  }

  /** A pair of tables that invert each other: the word sent for each value
      is lower-case and the get table takes it back to that value. */
  predicate Inverts(setMap: map<string, string>, getMap: map<string, string>) {
    forall v :: v in setMap ==> LowerAscii(setMap[v]) && setMap[v] in getMap && getMap[setMap[v]] == v
  }

  /** Every value the get table produces is one the set table accepts. */
  predicate Settable(setMap: map<string, string>, getMap: map<string, string>) {
    forall k :: k in getMap ==> getMap[k] in setMap
  }

  lemma AcquisitionTables()
    ensures Inverts(AcqSetMap, AcqGetMap) && Settable(AcqSetMap, AcqGetMap)
  {
    assert AcqSetMap.Keys == {"normal", "average"};
    assert AcqGetMap.Keys == {"sam", "sample", "ave", "average"};
  }

  lemma EdgeSlopeTables()
    ensures Inverts(TriggerSetMap, TriggerGetMap) && Settable(TriggerSetMap, TriggerGetMap)
  {
    assert TriggerSetMap.Keys == {"positive", "negative", "either"};
    assert TriggerGetMap.Keys == {"rise", "ris", "fall", "either"};
  }

  /** Both attributes of the driver have inverting, settable tables. */
  lemma MappedTables(a: Mapped)
    requires a == Acquisition || a == EdgeSlope
    ensures Inverts(a.setMap, a.getMap) && Settable(a.setMap, a.getMap)
  {
    if a == Acquisition {
      AcquisitionTables();
    } else {
      EdgeSlopeTables();
    }
  }

  /** Lower-casing an upper-cased word of lower-case letters gives it back. */
  lemma {:induction false} LowerUpper(t: string)
    requires LowerAscii(t)
    ensures Lower(ResourceLocator.Upper(t)) == t
  {
    if t != [] {
      LowerUpper(t[1..]);
      assert ResourceLocator.Upper(t) == [ResourceLocator.UpperChar(t[0])] + ResourceLocator.Upper(t[1..]);
    }
  }

  lemma {:induction false} LowerLower(t: string)
    requires LowerAscii(t)
    ensures Lower(t) == t
  {
    if t != [] {
      LowerLower(t[1..]);
    }
  }

  /** With inverting tables, whatever the driver sends for a value, read
      back in either case, translates to that value. */
  lemma SetThenTranslate(setMap: map<string, string>, getMap: map<string, string>, v: string)
    requires Inverts(setMap, getMap) && v in setMap
    ensures Translate(Ok(Str(setMap[v])), getMap) == Ok(v)
    ensures Translate(Ok(Str(ResourceLocator.Upper(setMap[v]))), getMap) == Ok(v)
  {
    LowerUpper(setMap[v]);
    LowerLower(setMap[v]);
  }

  /** The attribute's name does not begin with `set`, so the getter's and
      the setter's tags both name it. */
  predicate OwnEntry(a: Mapped) {
    !AttributeCache.StartsWith(a.name, "set")
  }

  lemma AttributesOwnEntries()
    ensures OwnEntry(Acquisition) && OwnEntry(EdgeSlope)
  {
    assert Acquisition.name[0] != 's' && EdgeSlope.name[0] != 's';
  }

  /** Once a setter has marked the attribute valid, the getter's lookup (on
      the default index, with the cache on) is a hit that changes nothing. */
  lemma HitAfterMark(m: map<string, bool>, a: Mapped)
    requires OwnEntry(a)
    ensures AttributeCache.Lookup(m[a.name := true], true, Getter(a), -1, false) == (Ok(true), m[a.name := true])
  {
    AttributeCache.GetterTag(a.name);
  }

  /** Both accessors of such an attribute use the attribute's own entry. */
  lemma AccessorTags(a: Mapped)
    requires OwnEntry(a)
    ensures AttributeCache.CacheTag(Getter(a)) == Ok(a.name)
    ensures AttributeCache.CacheTag(Setter(a)) == Ok(a.name)
  {
    AttributeCache.GetterTag(a.name);
    AttributeCache.SetterTag(a.name);
  }

  class Scope {
    /** The session the driver inherits from. */
    const drv: Driver
    var acquisitionType: string
    var triggerEdgeSlope: string

    constructor (d: Driver, acquisition: string, slope: string)
      ensures drv == d && acquisitionType == acquisition && triggerEdgeSlope == slope
    {
      drv := d;
      acquisitionType := acquisition;
      triggerEdgeSlope := slope;
    }

    /** Whether a mapped getter must ask the instrument: not simulating,
        and the cache lookup of its tag answers "not valid". */
    predicate Misses(a: Mapped)
      reads drv`options, drv`cacheValid
    {
      !drv.options.simulate
      && AttributeCache.Lookup(drv.cacheValid, drv.options.cache, Getter(a), -1, false).0 == Ok(false)
    }

    /** `_get_acquisition_type`. */
    method GetAcquisitionType() returns (r: Result<string>)
      modifies this`acquisitionType, drv`cacheValid, drv`iface, drv`trace
      ensures acquisitionType == if r.Ok? then r.value else old(acquisitionType)
      ensures old(drv.options.simulate) ==>
        r == Ok(old(acquisitionType)) && drv.cacheValid == old(drv.cacheValid) && drv.trace == old(drv.trace)
      ensures !old(drv.options.simulate) ==>
        var (hit, m) := AttributeCache.Lookup(old(drv.cacheValid), drv.options.cache, Getter(Acquisition), -1, false);
        (hit == Ok(true) ==> r == Ok(old(acquisitionType)) && drv.cacheValid == m && drv.trace == old(drv.trace))
        && (hit == Ok(false) ==>
              (r == Translate(old(drv.AskReply(Text(Acquisition.query), -1)), Acquisition.getMap)
               && drv.cacheValid == if r.Ok? then m[Acquisition.name := true] else m))
      ensures old(Misses(Acquisition)) ==>
        drv.iface == old(drv.AskIface(Text(Acquisition.query), -1)) && drv.trace == old(drv.AskTrace(Text(Acquisition.query), -1))
      ensures !old(Misses(Acquisition)) ==> drv.iface == old(drv.iface) && drv.trace == old(drv.trace)
    {
      AttributesOwnEntries();
      r := GetMapped(Acquisition, acquisitionType);
      if r.Ok? {
        acquisitionType := r.value;
      }
    }

    /** `_get_trigger_edge_slope`. */
    method GetTriggerEdgeSlope() returns (r: Result<string>)
      modifies this`triggerEdgeSlope, drv`cacheValid, drv`iface, drv`trace
      ensures triggerEdgeSlope == if r.Ok? then r.value else old(triggerEdgeSlope)
      ensures old(drv.options.simulate) ==>
        r == Ok(old(triggerEdgeSlope)) && drv.cacheValid == old(drv.cacheValid) && drv.trace == old(drv.trace)
      ensures !old(drv.options.simulate) ==>
        var (hit, m) := AttributeCache.Lookup(old(drv.cacheValid), drv.options.cache, Getter(EdgeSlope), -1, false);
        (hit == Ok(true) ==> r == Ok(old(triggerEdgeSlope)) && drv.cacheValid == m && drv.trace == old(drv.trace))
        && (hit == Ok(false) ==>
              (r == Translate(old(drv.AskReply(Text(EdgeSlope.query), -1)), EdgeSlope.getMap)
               && drv.cacheValid == if r.Ok? then m[EdgeSlope.name := true] else m))
      ensures old(Misses(EdgeSlope)) ==>
        drv.iface == old(drv.AskIface(Text(EdgeSlope.query), -1)) && drv.trace == old(drv.AskTrace(Text(EdgeSlope.query), -1))
      ensures !old(Misses(EdgeSlope)) ==> drv.iface == old(drv.iface) && drv.trace == old(drv.trace)
    {
      AttributesOwnEntries();
      r := GetMapped(EdgeSlope, triggerEdgeSlope);
      if r.Ok? {
        triggerEdgeSlope := r.value;
      }
    }

    /** The body both getters share: the current value unless the
        instrument must be asked, else the translated reply, with the entry
        marked valid once it is stored. */
    method GetMapped(a: Mapped, current: string) returns (r: Result<string>)
      requires OwnEntry(a)
      modifies drv`cacheValid, drv`iface, drv`trace
      ensures old(drv.options.simulate) ==>
        r == Ok(current) && drv.cacheValid == old(drv.cacheValid) && drv.trace == old(drv.trace)
      ensures !old(drv.options.simulate) ==>
        var (hit, m) := AttributeCache.Lookup(old(drv.cacheValid), drv.options.cache, Getter(a), -1, false);
        (hit == Ok(true) ==> r == Ok(current) && drv.cacheValid == m && drv.trace == old(drv.trace))
        && (hit == Ok(false) ==>
              (r == Translate(old(drv.AskReply(Text(a.query), -1)), a.getMap)
               && drv.cacheValid == if r.Ok? then m[a.name := true] else m))
      ensures old(Misses(a)) ==>
        drv.iface == old(drv.AskIface(Text(a.query), -1)) && drv.trace == old(drv.AskTrace(Text(a.query), -1))
      ensures !old(Misses(a)) ==> drv.iface == old(drv.iface) && drv.trace == old(drv.trace)
    {
      r := Ok(current);
      if drv.options.simulate {
        return;
      }
      AccessorTags(a);
      var valid := drv.GetCacheValid(Getter(a), -1, false);
      if valid.Err? {
        return Err(valid.error);
      }
      if !valid.value {
        r := FetchMapped(a);
      }
    }

    /** The miss path of a mapped getter: ask, translate, and mark the
        entry valid when the reply translated. */
    method FetchMapped(a: Mapped) returns (r: Result<string>)
      requires AttributeCache.CacheTag(Getter(a)) == Ok(a.name)
      modifies drv`cacheValid, drv`iface, drv`trace
      ensures r == Translate(old(drv.AskReply(Text(a.query), -1)), a.getMap)
      ensures drv.cacheValid == if r.Ok? then old(drv.cacheValid)[a.name := true] else old(drv.cacheValid)
      ensures drv.iface == old(drv.AskIface(Text(a.query), -1))
      ensures drv.trace == old(drv.AskTrace(Text(a.query), -1))
    {
      var reply := drv.Ask(Text(a.query), -1);
      r := Translate(reply, a.getMap);
      if r.Ok? {
        var s := drv.SetCacheValid(true, Getter(a), -1);
      }
    }

    /** `_set_acquisition_type(value)`. */
    method SetAcquisitionType(value: string) returns (r: Outcome)
      modifies this`acquisitionType, drv`cacheValid, drv`trace
      ensures value !in AcqSetMap ==>
        r == Fail(ValueNotSupported) && acquisitionType == old(acquisitionType)
        && drv.cacheValid == old(drv.cacheValid) && drv.trace == old(drv.trace)
      ensures value in AcqSetMap && !drv.options.simulate && !drv.Ready() ==>
        r == Fail(NotInitialized) && acquisitionType == old(acquisitionType)
        && drv.cacheValid == old(drv.cacheValid) && drv.trace == old(drv.trace)
      ensures value in AcqSetMap && (drv.options.simulate || drv.Ready()) ==>
        r == Pass && acquisitionType == value
        && drv.cacheValid == old(drv.cacheValid)[Acquisition.name := true]
        && drv.trace == old(drv.trace) + SetCalls(drv, Acquisition, value)
    {
      AttributesOwnEntries();
      var ok := SetMapped(Acquisition, value);
      r := ok;
      if ok.Pass? {
        acquisitionType := value;
        r := MarkValid(Acquisition);
      }
    }

    /** `_set_trigger_edge_slope(slope)`. */
    method SetTriggerEdgeSlope(slope: string) returns (r: Outcome)
      modifies this`triggerEdgeSlope, drv`cacheValid, drv`trace
      ensures slope !in TriggerSetMap ==>
        r == Fail(ValueNotSupported) && triggerEdgeSlope == old(triggerEdgeSlope)
        && drv.cacheValid == old(drv.cacheValid) && drv.trace == old(drv.trace)
      ensures slope in TriggerSetMap && !drv.options.simulate && !drv.Ready() ==>
        r == Fail(NotInitialized) && triggerEdgeSlope == old(triggerEdgeSlope)
        && drv.cacheValid == old(drv.cacheValid) && drv.trace == old(drv.trace)
      ensures slope in TriggerSetMap && (drv.options.simulate || drv.Ready()) ==>
        r == Pass && triggerEdgeSlope == slope
        && drv.cacheValid == old(drv.cacheValid)[EdgeSlope.name := true]
        && drv.trace == old(drv.trace) + SetCalls(drv, EdgeSlope, slope)
    {
      AttributesOwnEntries();
      var ok := SetMapped(EdgeSlope, slope);
      r := ok;
      if ok.Pass? {
        triggerEdgeSlope := slope;
        r := MarkValid(EdgeSlope);
      }
    }

    /** The check and the write both setters make. */
    method SetMapped(a: Mapped, value: string) returns (r: Outcome)
      modifies drv`trace
      ensures value !in a.setMap ==> r == Fail(ValueNotSupported) && drv.trace == old(drv.trace)
      ensures value in a.setMap && !drv.options.simulate && !drv.Ready() ==>
        r == Fail(NotInitialized) && drv.trace == old(drv.trace)
      ensures value in a.setMap && (drv.options.simulate || drv.Ready()) ==>
        r == Pass && drv.trace == old(drv.trace) + SetCalls(drv, a, value)
    {
      if value !in a.setMap {
        return Fail(ValueNotSupported);
      }
      r := Pass;
      if !drv.options.simulate {
        r := drv.Write(Text(a.command + a.setMap[value]));
      }
    }

    /** `self._set_cache_valid()` from a setter. */
    method MarkValid(a: Mapped) returns (r: Outcome)
      requires OwnEntry(a)
      modifies drv`cacheValid
      ensures r == Pass && drv.cacheValid == old(drv.cacheValid)[a.name := true]
    {
      AccessorTags(a);
      r := drv.SetCacheValid(true, Setter(a), -1);
    }
  }

  /** The calls a successful setter makes: none when simulating, else the
      `_write` of the command with the value's word. */
  function SetCalls(d: Driver, a: Mapped, value: string): seq<Call>
    requires value in a.setMap
    reads d`options, d`initialized, d`iface
  {
    if d.options.simulate || !d.Ready() then [] else WriteCalls(d.iface.value.caps, Text(a.command + a.setMap[value]))
  }

  /** A set followed by a get, with the cache on: the getter answers from
      the cache with the value just set, without asking the instrument. */
  method SetThenGet(s: Scope, v: string) returns (r: Result<string>)
    requires v in AcqSetMap && s.drv.options.cache && (s.drv.options.simulate || s.drv.Ready())
    modifies s, s.drv
    ensures r == Ok(v) && s.acquisitionType == v
    ensures s.drv.trace == old(s.drv.trace + SetCalls(s.drv, Acquisition, v))
  {
    var m0 := s.drv.cacheValid;
    var w := s.SetAcquisitionType(v);
    AttributesOwnEntries();
    HitAfterMark(m0, Acquisition);
    r := s.GetAcquisitionType();
  }
}
