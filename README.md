# python-ivi driver runtime, modelled in Dafny

This project models the shared runtime of python-ivi. Every instrument driver of that library builds on this runtime: the `Driver` class of `ivi/ivi.py` with its module-level helpers. It also models one consumer of the runtime, the mapped enumeration attributes of the Tektronix MSO2000 oscilloscope driver.

The modules follow the source:

- `Errors` (errors.dfy): the exceptions the runtime raises, plus `Result`, `Outcome` and `Option`.
- `Sequences` (sequences.dfy): the first-occurrence search shared by the block decoder and `get_index`.
- `Decimal` (decimal.dfy): `'%d'`, `'%08d'` and `int()` on ASCII numerals.
- `Utf8` (utf8.dfy): strict UTF-8, the default encoding of the text helpers.
- `IeeeBlock` (ieee_block.dfy): the IEEE 488.2 arbitrary block (section 7.7.6 of IEEE 488.2). It covers `build_ieee_block` and `decode_ieee_block`. The decoder keeps its scanning `while` loop.
- `Selector` (selector.dfy): `get_index` and `get_index_dict`, which resolve repeated-capability selectors.
- `AttributeCache` (attribute_cache.dfy): the cache tag and the validity map behind `_get_cache_valid` and `_set_cache_valid`.
- `InstrumentIo` (instrument_io.dfy): the interface object a session talks to. The instrument is modelled as the bytes it has queued. Every call made on the interface is recorded in order. The module also defines what each I/O helper does when it falls back on emulation.
- `ResourceLocator` (resource.dfy): the VISA resource-descriptor pattern of `initialize`, and the choice of backend as a pure function of the type token, the preference flag and the set of available backends.
- `Session` (session.dfy): class `Driver`. Its fields are the option flags, the initialised flag, the interface, the cache map, the coercion and interchange queues, and the call trace. Its methods are the lifecycle (`initialize`, `close`, the `simulate` setter) and every I/O helper.
- `Mso2000` (mso2000.dfy): class `Scope` with the stored acquisition type and trigger edge slope, the four translation tables, and the cached getters and setters.

## Model

| member | source | states |
|---|---|---|
| Decimal.ZeroPad | ivi/ivi.py:299 | `'%08d' % n` is all digits, exactly max(8, width of n) wide, and `int()` reads n back from it |
| Decimal.Parse | ivi/ivi.py:1554 | `int()` succeeds exactly on a non-empty string of ASCII digits |
| Decimal.ValueOfDigits | ivi/ivi.py:1422 | the numeral `'%d' % n` denotes n |
| Decimal.DigitsWidth | ivi/ivi.py:299 | the numeral of n fits k digits exactly when n < 10^k, so the `%08d` field stays 8 wide exactly below 10^8 |
| Decimal.DigitsInjective | ivi/ivi.py:1421-1422 | distinct indices give distinct `'_%d'` suffixes |
| Utf8.Encode | ivi/ivi.py:1486 | an encoding is at least one byte per character |
| Utf8.EncodeConcat | ivi/ivi.py:1633-1637 | encoding a concatenation is the concatenation of the encodings |
| Utf8.EncodeAscii | ivi/ivi.py:299 | ASCII text, such as a block header, encodes to one byte per character, each being that character's code |
| Utf8.DecodeEncode | ivi/ivi.py:1486-1498 | what `_write` encodes, a strict UTF-8 decode gives back unchanged |
| IeeeBlock.Slice | ivi/ivi.py:325-327 | a Python slice: clamped to the data, the exact sub-sequence when in range, the tail when the end overshoots |
| Sequences.FirstIndex | ivi/ivi.py:212-213 | `l.index(i)`, like the `#` scan of `decode_ieee_block` (lines 313-315), gives the position of the first occurrence |
| IeeeBlock.ParseField | ivi/ivi.py:318-322 | `int()` of a header field succeeds exactly when the field is a non-empty run of ASCII digits |
| IeeeBlock.FieldValueBound | ivi/ivi.py:322 | a k-digit length field denotes a value below 10^k |
| IeeeBlock.BuildIeeeBlock | ivi/ivi.py:294-300 | the block starts with `#8` and ends with the payload; below 10^8 bytes it is exactly 10 bytes longer than the payload |
| IeeeBlock.BuildParts | ivi/ivi.py:294-300 | the block is `#`, `8`, the zero-padded 8-digit length, then the payload |
| IeeeBlock.DecodeIeeeBlock | ivi/ivi.py:303-327 | the byte-by-byte scanning decoder computes exactly the decoded value: empty for empty input, else the rest parsed after the first `#` |
| IeeeBlock.DecodedAfter | ivi/ivi.py:313-318 | decoding goes on right after the first `#` |
| IeeeBlock.NoiseIgnored | ivi/ivi.py:312-315 | bytes before the first `#` do not change the decoded payload |
| IeeeBlock.DefiniteParts | ivi/ivi.py:318-325 | after `#`, a count digit equal to the field width, and a length field, the payload is the slice of that length, whatever follows |
| IeeeBlock.DefiniteBlock | ivi/ivi.py:318-325 | a block with n announced decodes to the first n payload bytes, or to the shorter remainder without an error |
| IeeeBlock.OpenEndedBlock | ivi/ivi.py:318-327 | `#0` gives everything after the `0` |
| IeeeBlock.OpenEnded | ivi/ivi.py:312-327 | the same after any preamble that holds no `#` |
| IeeeBlock.DecodedIsSlice | ivi/ivi.py:303-327 | a decoded payload is always a contiguous run of the input |
| IeeeBlock.BuildDecodeRoundTrip | ivi/ivi.py:294-327 | decoding the built block gives the payload back for every payload below 10^8 bytes |
| IeeeBlock.BuildIeeeBlockOverflow | ivi/ivi.py:294-300 | as written, the round trip fails for every payload of 10^8 bytes or more |
| IeeeBlock.RoundTripExactly | ivi/ivi.py:294-327 | the as-written round trip holds if and only if the payload is below 10^8 bytes |
| IeeeBlock.BuildIeeeBlockSized | ivi/ivi.py:294-300 | the corrected builder ends with the payload and equals the original below 10^8 bytes |
| IeeeBlock.SizedRoundTrip | ivi/ivi.py:294-327 | the corrected builder round-trips every payload |
| Selector.GetIndex | ivi/ivi.py:200-216 | a dict answers the index stored for the key, and a missing key raises SelectorRangeException for an int and SelectorNameException otherwise; in a list an element resolves to its first position and an in-range int to itself; any other int raises SelectorRangeException and any other name raises SelectorNameException |
| Selector.GetIndexDict | ivi/ivi.py:219-225 | the loop builds the dict that maps each element and each position, later positions overwriting earlier ones |
| Selector.IndexDictContents | ivi/ivi.py:219-225 | the dict holds exactly the elements and the positions, each mapped to the last position that assigned it |
| Selector.DictAgreesWithList | ivi/ivi.py:200-225 | for distinct names the dict answers every lookup exactly as the list does |
| Selector.RepeatedNameDisagrees | ivi/ivi.py:200-225 | with a repeated name the list answers with the first occurrence and the dict with the last |
| AttributeCache.DropPrefix | ivi/ivi.py:1411-1412 | the tag comes back unchanged, or with the prefix removed from its front |
| AttributeCache.CacheTag | ivi/ivi.py:1411-1415 | the as-written tag is a suffix of the given name; the only error is IndexError |
| AttributeCache.CacheTagErrors | ivi/ivi.py:1411-1413 | the tag raises only for names that are nothing but the stripped prefixes |
| AttributeCache.PrefixOnlyTagsFail | ivi/ivi.py:1411-1413 | it raises for each of those names |
| AttributeCache.SetterTag | ivi/ivi.py:1411-1415 | setter `_set_<n>` names entry n |
| AttributeCache.GetterTag | ivi/ivi.py:1411-1415 | getter `_get_<n>` names entry n if and only if n does not begin with `set` |
| AttributeCache.GetterSuffix | ivi/ivi.py:1411-1415 | getter `_get_set<m>` names entry m |
| AttributeCache.SetAttributeEntriesDiffer | ivi/ivi.py:1411-1415 | as written, the two accessors of an attribute named `set...` use different entries |
| AttributeCache.CacheTagFixed | ivi/ivi.py:1411-1415 | the corrected tag is a suffix of the name and fails only on names of at most four characters |
| AttributeCache.FixedAccessorTags | ivi/ivi.py:1411-1415 | under the corrected tag, both accessors of every attribute n name entry n |
| AttributeCache.FixedAgrees | ivi/ivi.py:1411-1415 | the correction changes nothing unless the name begins with `_get_set` |
| AttributeCache.CacheKey | ivi/ivi.py:1421-1422 | a non-negative index selects the key `tag + "_" + digits`, and any other index selects the bare tag |
| AttributeCache.CacheKeyInjective | ivi/ivi.py:1421-1422 | distinct indices of one tag (including the default -1) select distinct keys |
| AttributeCache.Lookup | ivi/ivi.py:1417-1427 | through `_get_cache_tag` as written: with the cache off and not skipped the answer is false; existing entries are kept; a true answer leaves the map as it was; a tag error is IndexError and changes nothing |
| AttributeCache.Store | ivi/ivi.py:1429-1433 | through `_get_cache_tag` as written: storing adds at most one key and keeps every key |
| AttributeCache.LookupAbsent | ivi/ivi.py:1424-1427 | an absent key reads false and is entered as false |
| AttributeCache.LookupAfterStore | ivi/ivi.py:1417-1433 | after storing v for a tag and index, looking it up with the cache on answers v and changes nothing |
| AttributeCache.StoreFrame | ivi/ivi.py:1417-1433 | storing under one key leaves every other key's answer unchanged |
| AttributeCache.AccessorsShareEntry | ivi/ivi.py:1411-1433 | for an attribute whose name does not begin with `set`, what the setter stores, the getter of the same attribute and index reads back |
| AttributeCache.SetterMissedByGetter | ivi/ivi.py:1411-1433 | for an attribute named `set<m>`, after the setter marks its entry valid the getter still reads invalid |
| InstrumentIo.Take | ivi/ivi.py:1454 | `read_raw(num)` returns at most num queued bytes, or all of them for a negative num, and always from the front |
| InstrumentIo.Drop | ivi/ivi.py:1454 | what is read, followed by what stays queued, is the queue before the read |
| InstrumentIo.StripCrLf | ivi/ivi.py:1498 | `rstrip('\r\n')` removes exactly the trailing run of CR and LF characters |
| InstrumentIo.StripTerminator | ivi/ivi.py:1498 | stripping a line followed by terminators gives the line |
| InstrumentIo.TextOf | ivi/ivi.py:1498 | the emulated `_read` fails with UnicodeDecodeError exactly when the bytes are not UTF-8, else gives a prefix of the decoded text |
| InstrumentIo.LineReadsBack | ivi/ivi.py:1486-1498 | a line sent as UTF-8 with a terminator reads back as the line |
| InstrumentIo.RawWrites | ivi/ivi.py:1480-1486 | one `write_raw` of the encoded string per string, in order |
| InstrumentIo.WriteCalls | ivi/ivi.py:1470-1486 | `_write` is one native `write` when the interface has one; otherwise it is one `write_raw` per string of the command, in order |
| InstrumentIo.ReadCalls | ivi/ivi.py:1488-1498 | `_read` makes exactly one call |
| InstrumentIo.Ask | ivi/ivi.py:1500-1519 | `_ask` answers a string with a string and a list with a list of the same length; it consumes a prefix of the queue; a native `ask` is one call |
| InstrumentIo.AskEmulated | ivi/ivi.py:1509-1519 | the emulation has the same shape guarantees as `_ask` |
| InstrumentIo.AskAll | ivi/ivi.py:1511-1516 | the list loop answers one reply per element |
| InstrumentIo.AskValueIndependent | ivi/ivi.py:1500-1519 | the replies and the bytes consumed do not depend on which native methods the interface has; a consequence of the Left-out assumption on native calls |
| InstrumentIo.AskAllIndependent | ivi/ivi.py:1511-1516 | the same holds for the list loop; a consequence of the Left-out assumption on native calls |
| InstrumentIo.AskInOrder | ivi/ivi.py:1511-1516 | an emulated list ask answers element by element, in order: the list with one more element gives the earlier replies followed by the new element's reply, asked on the bytes left after them |
| InstrumentIo.WriteInOrder | ivi/ivi.py:1480-1486 | a list of strings reaches the interface as one `write_raw` per string, in order |
| InstrumentIo.StbFromReply | ivi/ivi.py:1554 | the `*STB?` fallback yields a number exactly when the reply is a decimal numeral, and passes an ask error on |
| InstrumentIo.ReadIeeeBlock | ivi/ivi.py:1594-1616 | the streaming read consumes a prefix of the queued bytes |
| InstrumentIo.ReadAfterHash | ivi/ivi.py:1609-1614 | reading after the `#` consumes a prefix |
| InstrumentIo.ReadPayload | ivi/ivi.py:1611-1612 | reading the length field and the payload consumes a prefix |
| InstrumentIo.ReadMatchesDecode | ivi/ivi.py:1594-1616 | for ASCII length fields, reading a block one call at a time yields what `decode_ieee_block` makes of the same bytes |
| InstrumentIo.AfterHashMatches | ivi/ivi.py:1609-1614 | the same, for the part after the `#` |
| InstrumentIo.PayloadMatches | ivi/ivi.py:1611-1612 | the same, for the length field and the payload |
| ResourceLocator.TypeName | ivi/ivi.py:1259 | the type names of the pattern |
| ResourceLocator.NativeBackend | ivi/ivi.py:1275-1329 | each type's own library is not PyVISA |
| ResourceLocator.UpperChar | ivi/ivi.py:1268 | `str.upper` maps ASCII lower-case letters to upper case |
| ResourceLocator.Upper | ivi/ivi.py:1268 | `str.upper` works character by character |
| ResourceLocator.MatchDescriptor | ivi/ivi.py:1258-1268 | no match exactly when the string matches the pattern with no type at all (`\d` taking any Unicode decimal digit); a match yields the upper-cased type group |
| ResourceLocator.SelectBackend | ivi/ivi.py:1275-1332 | PyVISA first when it is preferred and available, then the type's own library, then PyVISA; the result is available; there is none exactly when neither is available |
| ResourceLocator.StringBackend | ivi/ivi.py:1258-1332 | a non-matching string goes to PyVISA or raises IOException; a matching one follows the preference order; errors are IOException |
| ResourceLocator.TypeUnique | ivi/ivi.py:1259 | no string matches with two different types |
| ResourceLocator.KnownUnlessDottedI | ivi/ivi.py:1259-1268 | a matched type upper-cases to its own name unless its group holds a dotted capital I |
| ResourceLocator.UpperOfMatch | ivi/ivi.py:1259-1268 | upper-casing a case-insensitive match gives the word back exactly when no dotted capital I occurs |
| ResourceLocator.FirstLetterDecides | ivi/ivi.py:1259 | a string whose first character cannot fold to a type's first letter does not match that type |
| ResourceLocator.DescriptorMatches | ivi/ivi.py:1241-1260 | every descriptor of the documented shape matches, in any letter case |
| ResourceLocator.DescriptorToken | ivi/ivi.py:1241-1268 | such a descriptor yields its own type, except when spelt with a dotted capital I |
| ResourceLocator.NonAsciiBoard | ivi/ivi.py:1258-1332 | a board number in Arabic-Indic digits (`GPIB\u0661::1::INSTR`) matches as GPIB and opens with linux-gpib |
| ResourceLocator.MatchEndsInInstr | ivi/ivi.py:1259 | every match ends in `::INSTR`, in any case, optionally followed by one newline |
| Session.OptionNamed | ivi/ivi.py:1212-1231 | a recognised key is the keyword of the option it sets |
| Session.OptionNamedComplete | ivi/ivi.py:1212-1231 | every option is recognised by its own keyword |
| Session.KnownIffNamed | ivi/ivi.py:1212-1231 | a key is accepted if and only if it is one of the eight keywords |
| Session.ConstructorOptions | ivi/ivi.py:1049-1053 | the constructor passes on exactly the keyword arguments whose key is one of the eight options, and no others |
| Session.UnknownKeywordDropped | ivi/ivi.py:1049-1069 | `Driver(foo=1)` passes no options on, so it is not initialised and raises nothing |
| Session.Assign | ivi/ivi.py:1214-1229 | `simulate` sets only the simulation flag, to `bool(val)`; `driver_setup` stores the value as given; no other option touches either |
| Session.ApplyOption | ivi/ivi.py:1213-1231 | one key fails with UnknownOptionException exactly when it is not recognised |
| Session.DecodeOptions | ivi/ivi.py:1212-1231 | the only failure of the option loop is UnknownOptionException |
| Session.OptionsFail | ivi/ivi.py:1212-1231 | the loop fails if and only if some key is unknown |
| Session.OptionsStopAtUnknown | ivi/ivi.py:1212-1231 | it then keeps the settings made by the options before the first unknown key |
| Session.OptionsLeaveSimulation | ivi/ivi.py:1220-1221 | unlike the property setter, `initialize` can switch simulation off |
| Session.SimulateUntouched | ivi/ivi.py:1212-1231 | options that do not name `simulate` leave it alone |
| Session.ResourceStep | ivi/ivi.py:1233-1347 | simulation keeps the interface; no resource raises IOException; a string attaches the chosen backend or raises; an object is taken when usable and otherwise raises IOException |
| Session.PrefixBytes | ivi/ivi.py:1630-1635 | a string prefix is encoded, a bytes prefix is kept, and no prefix is empty |
| Session.WrittenBlockDecodes | ivi/ivi.py:1623-1639 | when the prefix holds no `#`, the instrument decodes the payload from what `_write_ieee_block` sends exactly when the payload is below 10^8 bytes |
| Session.SizedBlockDecodes | ivi/ivi.py:1623-1639 | with the corrected builder the payload is decoded for every size |
| Session.Driver.constructor | ivi/ivi.py:1047-1069 | the option defaults, PyVISA preference from the module setting, uninitialised, no interface, empty cache and queues |
| Session.Driver.Create | ivi/ivi.py:1047-1069 | only the eight option keys reach `initialize`; without a resource or any of them the driver keeps every default (settings, no interface, empty descriptor, cache, queues and trace) and nothing is raised; otherwise the settings are those of the recognised options, the cache is empty, and the attachment step decides the rest: an error leaves the driver uninitialised with no interface and is an IOException, simulation leaves no interface, an attachment sets the interface and the descriptor |
| Session.Driver.SetSimulate | ivi/ivi.py:591-596 | once on, simulation cannot be switched off (SimulationStateException, nothing changes); otherwise the flag becomes `bool(value)` |
| Session.Driver.Initialize | ivi/ivi.py:1071-1351 | options are applied first; an unknown key raises before the resource is looked at; the resource step's error is raised; success leaves the session initialised with the new interface and an empty cache; failure keeps interface, cache and descriptor |
| Session.Driver.ApplyOptions | ivi/ivi.py:1212-1231 | the option loop leaves the settings and outcome of the option semantics |
| Session.Driver.Close | ivi/ivi.py:1353-1373 | always ends uninitialised without an interface; the interface's `close` is called when it has one |
| Session.Driver.NextCoercionRecord | ivi/ivi.py:647-649 | pops the newest record, or returns "" and changes nothing when there is none |
| Session.Driver.NextInterchangeWarning | ivi/ivi.py:672-674 | pops the newest warning, or returns "" |
| Session.Driver.ClearInterchangeWarnings | ivi/ivi.py:598-610 | the warning list is empty afterwards |
| Session.Driver.GetCacheValid | ivi/ivi.py:1417-1427 | answer and new map are those of the cache semantics, with the tag as `_get_cache_tag` computes it |
| Session.Driver.SetCacheValid | ivi/ivi.py:1429-1433 | the new map is the stored one, with the tag as `_get_cache_tag` computes it; a tag error changes nothing |
| Session.Driver.InvalidateAllAttributes | ivi/ivi.py:1435-1436 | the cache map is empty afterwards |
| Session.Driver.WriteRaw | ivi/ivi.py:1438-1445 | simulated: nothing sent; uninitialised: NotInitializedException; else exactly one `write_raw` |
| Session.Driver.ReadRaw | ivi/ivi.py:1447-1454 | simulated: empty bytes; uninitialised: raises; else the front of the queue, which is consumed |
| Session.Driver.AskRaw | ivi/ivi.py:1456-1467 | the native `ask_raw`, or else a `write_raw` then a `read_raw`, with the same reply |
| Session.Driver.Write | ivi/ivi.py:1470-1486 | simulated: nothing sent; uninitialised: raises; else the calls of the write semantics, in order |
| Session.Driver.Read | ivi/ivi.py:1488-1498 | simulated: ""; uninitialised: raises; else the decoded, stripped front of the queue |
| Session.Driver.Ask | ivi/ivi.py:1500-1519 | simulated: ""; uninitialised: raises; else the reply, bytes consumed and calls of the ask semantics |
| Session.Driver.AskEach | ivi/ivi.py:1511-1516 | the list loop of `_ask` gives the replies of the list semantics in order, stopping at the first error |
| Session.Driver.AskNext | ivi/ivi.py:1514-1515 | one more element extends the answered prefix by its reply |
| Session.Driver.ReadStb | ivi/ivi.py:1544-1554 | simulated: 0; uninitialised: raises; native `read_stb` when present, else `*STB?` read as a number |
| Session.Driver.Trigger | ivi/ivi.py:1556-1565 | raises when uninitialised even when simulating; native `trigger`, else `*TRG` written unless simulating |
| Session.Driver.Clear | ivi/ivi.py:1567-1576 | the same with `clear` and `*CLS` |
| Session.Driver.Remote | ivi/ivi.py:1578-1584 | raises when uninitialised even when simulating; the native `remote`, else AttributeError |
| Session.Driver.Local | ivi/ivi.py:1586-1592 | the same with `local` |
| Session.Driver.ReadIeeeBlock | ivi/ivi.py:1594-1616 | simulated: empty; uninitialised: raises; else the reply, bytes and calls of the streaming read, which decodes like `decode_ieee_block` |
| Session.Driver.ScanForHash | ivi/ivi.py:1606-1607 | the loop stops just past the first `#`, one single-byte read per byte |
| Session.Driver.ReadRest | ivi/ivi.py:1609-1614 | the reads after the `#` follow the streaming semantics |
| Session.Driver.ReadPayloadOf | ivi/ivi.py:1611-1612 | reads the length field, then that many bytes |
| Session.Driver.AskForIeeeBlock | ivi/ivi.py:1618-1621 | the write's calls followed by the block read |
| Session.Driver.WriteIeeeBlock | ivi/ivi.py:1623-1639 | the prefix followed by `build_ieee_block`'s block, in one `write_raw` |
| Mso2000.LowerChar | ivi/tektronix/tektronixMSO2000.py:73 | `str.lower` on ASCII upper-case letters, every other character kept |
| Mso2000.Lower | ivi/tektronix/tektronixMSO2000.py:73 | lower-casing works character by character |
| Mso2000.Translate | ivi/tektronix/tektronixMSO2000.py:73-74 | the lower-cased reply translated through the get table; a reply missing from it raises KeyError, an ask error is passed on |
| Mso2000.AcquisitionTables | ivi/tektronix/tektronixMSO2000.py:60-69 | for every value v of the acquisition set table, the get table takes its word back to v, and every value the get table yields is settable |
| Mso2000.EdgeSlopeTables | ivi/tektronix/tektronixMSO2000.py:49-59 | the same for the trigger slope tables |
| Mso2000.MappedTables | ivi/tektronix/tektronixMSO2000.py:49-69 | both attributes have inverting, settable tables |
| Mso2000.SetThenTranslate | ivi/tektronix/tektronixMSO2000.py:71-99 | the word sent for a value, read back in either case, translates to that value |
| Mso2000.HitAfterMark | ivi/tektronix/tektronixMSO2000.py:71-84 | for an attribute whose name does not begin with `set`, after a setter marks the entry, the getter's cache lookup is a hit that changes nothing |
| Mso2000.AccessorTags | ivi/tektronix/tektronixMSO2000.py:71-99 | for such an attribute, `_get_cache_tag` gives getter and setter the attribute's own entry |
| Mso2000.AttributesOwnEntries | ivi/tektronix/tektronixMSO2000.py:71-99 | neither `acquisition_type` nor `trigger_edge_slope` begins with `set`, so the tag as written serves both |
| Mso2000.Scope.constructor | ivi/tektronix/tektronixMSO2000.py:35 | the scope holds its session and the two stored values |
| Mso2000.Scope.GetAcquisitionType | ivi/tektronix/tektronixMSO2000.py:71-76 | simulated or cached: the stored value, with the interface and the trace untouched; otherwise the translated reply, stored and marked valid on success, and the interface and trace are those `_ask` leaves (its queue advanced past the reply when live, untouched when uninitialised) |
| Mso2000.Scope.GetTriggerEdgeSlope | ivi/tektronix/tektronixMSO2000.py:86-91 | the same for the trigger slope |
| Mso2000.Scope.GetMapped | ivi/tektronix/tektronixMSO2000.py:71-76 | the getter body both attributes share |
| Mso2000.Scope.FetchMapped | ivi/tektronix/tektronixMSO2000.py:72-75 | the miss path: ask, translate, mark the entry valid on success; the interface and the trace are those `_ask` leaves |
| Mso2000.Scope.SetAcquisitionType | ivi/tektronix/tektronixMSO2000.py:78-84 | an unknown value raises ValueNotSupportedException, writes nothing, changes nothing; success stores the value, marks the entry valid, writes the command unless simulating |
| Mso2000.Scope.SetTriggerEdgeSlope | ivi/tektronix/tektronixMSO2000.py:93-99 | the same for the trigger slope |
| Mso2000.Scope.SetMapped | ivi/tektronix/tektronixMSO2000.py:78-82 | the value check and the write both setters make |
| Mso2000.Scope.MarkValid | ivi/tektronix/tektronixMSO2000.py:84 | the attribute's entry becomes valid |
| Mso2000.SetThenGet | ivi/tektronix/tektronixMSO2000.py:71-84 | with the cache on, a get right after a set answers the value just set, without asking the instrument |

## Left out

- Transport backends (vxi11, usbtmc, linux-gpib, pyserial, PyVISA) are not part of this model. Opening one is the `open` parameter of `Initialize`. Which ones are installed is the `available` set.
- The interface is a value held by the driver, so aliasing of one interface object by several drivers is not modelled. Message boundaries, transport errors, timeouts, and a native `read`/`ask` whose framing differs from `read_raw` are not modelled either: a native call is taken to consume the queued bytes the emulation would consume.
- `close` tests the truthiness of `_interface`; an interface object that is falsy is not modelled. Exceptions from the interface's `close` are swallowed in the source and do not appear here.
- `_get_cache_tag` with no tag (the `inspect.stack()` caller lookup) is not modelled: the tag is always explicit, and the accessors pass their own names.
- `print` diagnostics in simulation are output only.
- The `id_query` and `reset` arguments of `initialize` are not modelled: their handling is not part of the modelled code.
- `str(data)` of a non-string in `_write` is not modelled: commands are strings or lists of them.
- Only UTF-8 is modelled as the `encoding` argument.
- Options are one `Settings` record rather than separate attributes.
- Decimal.Parse: Python's `int()` also accepts surrounding whitespace, a sign, underscores and non-ASCII digits; here only ASCII digit strings parse, and everything else is a ValueError.
- IeeeBlock.ParseField: the same restriction, on the header fields of a block.
- InstrumentIo.ReadMatchesDecode: `decode_ieee_block` decodes the byte-count field to text before `int()` (ivi/ivi.py:322), so it also accepts non-ASCII digits and raises UnicodeDecodeError on bytes that are not UTF-8, while `_read_ieee_block` applies `int()` to the raw bytes (ivi/ivi.py:1611), which takes ASCII digits only. Both readers use the ASCII-only `IeeeBlock.ParseField`, so the agreement is proved for ASCII fields only; on other fields the two source functions can differ.
- Mso2000.Lower: `str.lower` is modelled on ASCII letters only; other characters are kept unchanged.
- ResourceLocator.UpperChar: `str.upper` is modelled on the characters that can match a pattern letter.
- `decode_ieee_block` on non-empty input with no `#` never terminates (its scan runs past the end forever). `IeeeBlock.DecodeIeeeBlock`, `Session.Driver.ReadIeeeBlock` and `Session.Driver.AskForIeeeBlock` therefore require a `#` in non-empty input.
- The remaining MSO2000 class hierarchy and its other attributes, waveform and screenshot fetch, `TraceY`/`TraceYT`, `get_sig`, `rms` and `_ask_for_values` are not part of this model: they are floating point and numpy code.
- DriverIdentity getters, `lock_object`, `reset`, `self_test` and the other abstract operations are not part of this model: they are field reads or have no implementation.
- The docstrings of `next_coercion_record` and `next_interchange_warning` say the oldest entry is returned. The code pops the newest, and the model follows the code.
- The option keyword is `prefer_pyvisa`, as in the code.
- `_remote` and `_local` raise AttributeError when the interface lacks the method.
- `initialize` has no "already initialized" check, as in the code.
- `initialize` calls `invalidate_all_attributes`, which ivi/ivi.py:676-682 declares abstract with a `pass` body. A concrete driver binds it elsewhere, outside this model. The model takes it to be `_driver_operation_invalidate_all_attributes` (ivi/ivi.py:1435-1436), so `Session.Driver.Initialize` ends with an empty cache.
- Session.ConstructorOptions: the constructor's `kw` dict lists the options in its own fixed key order, while the model keeps the caller's order. Keyword names are distinct and each option sets its own field, so the settings agree; that agreement is not proved.
- ResourceLocator.RegexDigit: `\d` follows the Unicode 15.0 decimal-digit table; digits added by later Unicode versions are not included.
- `_trigger` and `_clear` do not return early when simulating.

## Findings

| source | as written | input that shows it | evidently intended | confidence | as-written member | corrected member |
|---|---|---|---|---|---|---|
| ivi/ivi.py:294-300 | `build_ieee_block` always writes `#8` followed by `'%08d' % len(data)`, which has more than eight digits once the payload reaches 10^8 bytes | a payload of 10^8 bytes: the header is `#8100000000`, and decoding reads the length 10000000 and returns the wrong payload | a digit count that matches the length field ("l is length of n"), so that every block decodes to its payload | not executed | IeeeBlock.BuildIeeeBlockOverflow | IeeeBlock.SizedRoundTrip |
| ivi/ivi.py:1411-1415 | `_get_cache_tag` strips a leading `_get` and then, independently, a leading `_set` | the getter `_get_settling_time` gives the tag `tling_time`, while the setter `_set_settling_time` gives `settling_time` | the getter and the setter of one attribute share one cache entry | not executed | AttributeCache.SetAttributeEntriesDiffer | AttributeCache.FixedAccessorTags |

The corrected builder (IeeeBlock.BuildIeeeBlockSized) writes eight digits, nine when needed, and an open-ended `#0` block beyond that. It is identical to the original below 10^8 bytes. Session.SizedBlockDecodes states what the driver would gain from it; Session.Driver.WriteIeeeBlock sends the original block, and Session.WrittenBlockDecodes shows the payload is lost from 10^8 bytes on. The corrected tag (AttributeCache.CacheTagFixed) strips `_get` or `_set`, not both. It is identical to the original for every name that does not begin with `_get_set` (AttributeCache.FixedAgrees). The driver's cache methods use the original tag, and AttributeCache.SetterMissedByGetter shows the missed entry.
