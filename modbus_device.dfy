/**
 * The Modbus device (RPCExp/Modbus/ModbusDevice.cs): its converter table,
 * byte order and `forceRead` flag, the four window readers, the polling pass,
 * the write path and the connection state machine of `IOUpdate`.  Tags are
 * values in the `tags` field; `SetValue` on a tag replaces it there.
 */
module Modbus {
  import opened Wrappers
  import opened Numeric
  import opened Tags
  import opened Scheduler
  import opened DeviceQueries
  import opened Windows
  import opened ModbusPolling
  import opened ModbusWriting

  /** The converter table all Modbus devices share (the static `typeConverters` dictionary). */
  class ConverterTable {
    var table: map<ValueType, Converter>

    constructor()
      ensures table == map[]
    {
      table := map[];
    }
  }

  /** Reading changes only runtime state, so names stay unique. */
  lemma SameShapeKeepsConfig(a: seq<Tag>, b: seq<Tag>)
    requires SameShape(a, b) && UniqueNames(b)
    ensures UniqueNames(a)
  {
  }

  /** A connection source, known here by its name only. */
  datatype ConnectionSource = ConnectionSource(name: string)

  class ModbusDevice {
    var name: string
    var description: string
    var connection: Option<ConnectionSource>
    var tags: seq<Tag>
    var policy: Policy
    var slaveId: Byte
    var forceRead: bool
    var byteOrder: seq<Byte>
    var frameType: FrameType
    const converters: ConverterTable

    /** Tag names are unique (they key the `Tags` dictionary) and the shared table is empty or full. */
    ghost predicate Valid()
      reads this, converters
    {
      UniqueNames(tags) && TableValid(converters.table)
    }

    constructor(converters: ConverterTable, tags: seq<Tag>, policy: Policy, slaveId: Byte)
      requires UniqueNames(tags) && TableValid(converters.table)
      ensures Valid()
      ensures this.converters == converters && this.tags == tags && this.policy == policy && this.slaveId == slaveId
      ensures forceRead && byteOrder == DefaultByteOrder && frameType == Ip
      ensures name == "" && description == "" && connection == None
    {
      name, description, connection := "", "", None;
      this.converters := converters;
      this.tags := tags;
      this.policy := policy;
      this.slaveId := slaveId;
      forceRead := true;
      byteOrder := DefaultByteOrder;
      frameType := Ip;
    }

    /** Clear the shared table and fill it with the three converters for this device's byte order. */
    method UpdateTypeConverters()
      modifies converters
      ensures converters.table == FullTable(byteOrder)
    {
      converters.table := map[];
      converters.table := converters.table[Float := Converter(Float, byteOrder)];
      converters.table := converters.table[Int16 := Converter(Int16, byteOrder)];
      converters.table := converters.table[Int32 := Converter(Int32, byteOrder)];
    }

    /** The `ByteOrder` setter: store the order and rebuild the shared table. */
    method SetByteOrder(order: seq<Byte>)
      modifies this`byteOrder, converters
      ensures byteOrder == order && converters.table == FullTable(order)
      ensures TableValid(converters.table)
    {
      byteOrder := order;
      UpdateTypeConverters();
    }

    /** The cached converter, or the table rebuilt and looked up again; `None` where the lookup throws. */
    method GetTypeConverter(vt: ValueType) returns (tc: Option<Converter>)
      modifies converters
      ensures vt in old(converters.table) ==> tc == Some(old(converters.table)[vt]) && converters.table == old(converters.table)
      ensures vt !in old(converters.table) ==> converters.table == FullTable(byteOrder)
      ensures vt !in old(converters.table) ==> (tc.Some? <==> HasConverter(vt))
      ensures vt !in old(converters.table) && tc.Some? ==> tc.value == Converter(vt, byteOrder)
    {
      if vt in converters.table {
        return Some(converters.table[vt]);
      }
      UpdateTypeConverters();
      if vt in converters.table {
        tc := Some(converters.table[vt]);
      } else {
        tc := None;
      }
    }

    /**
     * `GetTypeConverter` during a pass or a write that started with table `t0` and has not
     * missed yet: the converter of `t0` (or of the rebuilt table when `t0` was empty) for a
     * supported type; a throw, with the table rebuilt, for any other.
     */
    method ConverterOf(vt: ValueType, ghost t0: map<ValueType, Converter>) returns (c: Option<Converter>)
      requires TableValid(t0) && TableStable(t0, converters.table, byteOrder)
      modifies converters
      ensures c.Some? <==> HasConverter(vt)
      ensures c.Some? ==> c.value == ConverterFor(t0, byteOrder, vt)
      ensures c.Some? ==> converters.table == if t0 == map[] then FullTable(byteOrder) else t0
      ensures c.None? ==> converters.table == FullTable(byteOrder)
    {
      if HasConverter(vt) {
        StableLookup(t0, converters.table, byteOrder, vt);
      }
      c := GetTypeConverter(vt);
    }

    /** The failure branch of every window reader: no value and quality BAD for the window's tags. */
    method MarkWindowFailed(w: Window, now: int)
      requires forall m :: m in w.members ==> m.index < |tags|
      modifies this`tags
      ensures tags == FailedWindow(old(tags), w, now)
    {
      ghost var g := t => FailedTag(t, now);
      var k := 0;
      while k < |w.members|
        invariant 0 <= k <= |w.members|
        invariant tags == Overwrite(old(tags), Indices(w.members[..k]), g)
      {
        var i := w.members[k].index;
        assert w.members[k] in w.members;
        tags := tags[i := FailedTag(tags[i], now)];
        IndicesSnoc(w.members, k);
        OverwriteStep(old(tags), Indices(w.members[..k]), i, g);
        k := k + 1;
      }
      assert w.members[..k] == w.members;
    }

    /** One turn of the decoding loop: look up the tag's converter and decode its bytes, or throw. */
    method DecodeMember(m: Member, w: Window, buff: seq<Byte>, env: Env, ghost t0: map<ValueType, Converter>, ghost r: Region, ghost shape: seq<Tag>)
      returns (ok: bool)
      requires env.byteOrder == byteOrder && TableValid(t0) && TableStable(t0, converters.table, byteOrder)
      requires m in w.members && SameShape(tags, shape) && WindowFits(shape, w, r) && |buff| == 2 * w.length
      modifies this`tags, converters
      ensures SameShape(tags, shape)
      ensures ok <==> HasConverter(old(tags)[m.index].cfg.valueType)
      ensures ok ==> tags == old(tags)[m.index := DecodedTag(old(tags)[m.index], w, buff, t0, env)]
      ensures ok ==> converters.table == if t0 == map[] then FullTable(byteOrder) else t0
      ensures !ok ==> tags == old(tags) && converters.table == FullTable(byteOrder)
    {
      var t := tags[m.index];
      var c := ConverterOf(t.cfg.valueType, t0);
      if c.None? {
        return false;
      }
      var val := env.decode(c.value, buff[2 * (t.addr.begin - w.begin)..]);
      tags := tags[m.index := SetValue(t, Some(val), Good, env.now)];
      ok := true;
    }

    /**
     * The decoding loop of the register readers: each member in order gets its converter
     * and the value decoded from its offset, until a member's lookup throws.  `k` is the
     * number of members decoded.
     */
    method DecodeMembers(w: Window, buff: seq<Byte>, env: Env, ghost r: Region, ghost shape: seq<Tag>) returns (k: nat)
      requires env.byteOrder == byteOrder && TableValid(converters.table)
      requires SameShape(tags, shape) && WindowFits(shape, w, r) && |buff| == 2 * w.length
      modifies this`tags, converters
      ensures k == FirstUnconvertible(old(tags), w.members)
      ensures tags == Overwrite(old(tags), Indices(w.members[..k]), t => DecodedTag(t, w, buff, old(converters.table), env))
      ensures converters.table == TableAfterLookups(old(converters.table), byteOrder, w.members, k)
      ensures SameShape(tags, shape)
    {
      ghost var t0 := converters.table;
      ghost var g := t => DecodedTag(t, w, buff, t0, env);
      k := 0;
      while k < |w.members|
        invariant 0 <= k <= |w.members|
        invariant forall j :: 0 <= j < k ==> !Unconvertible(old(tags), w.members[j])
        invariant converters.table == if k > 0 && t0 == map[] then FullTable(byteOrder) else t0
        invariant tags == Overwrite(old(tags), Indices(w.members[..k]), g)
        invariant SameShape(tags, shape)
      {
        var m := w.members[k];
        assert m in w.members;
        var ok := DecodeMember(m, w, buff, env, t0, r, shape);
        if !ok {
          assert Unconvertible(old(tags), m);
          return;
        }
        IndicesSnoc(w.members, k);
        OverwriteStep(old(tags), Indices(w.members[..k]), m.index, g);
        k := k + 1;
      }
      assert w.members[..k] == w.members;
    }

    /**
     * `UpdateInputRegisters` / `UpdateHoldingRegisters`: read the window, unpack the words,
     * decode each tag.  An input-register window whose decoding throws is marked BAD by the
     * `catch`; in a holding-register window the exception escapes (`threw`).
     */
    method ReadRegisterWindow(r: Region, w: Window, env: Env, ghost shape: seq<Tag>, ghost prior: seq<Request>)
      returns (q: Request, threw: bool)
      requires IsRegisterRegion(r) && BusSound(env.bus)
      requires env.slave == slaveId && env.byteOrder == byteOrder && TableValid(converters.table)
      requires SameShape(tags, shape) && WindowFits(shape, w, r)
      modifies this`tags, converters
      ensures PassState(tags, converters.table, prior + [q], threw) ==
        ReadWindow(PassState(old(tags), old(converters.table), prior, false), w, r, env)
    {
      q := Request(slaveId, ReadFunction(r), w.begin, w.length);
      threw := false;
      var reply := env.bus(q);
      if !reply.Registers? {
        MarkWindowFailed(w, env.now);
        return;
      }
      var buff := UnpackWords(reply.words);
      var k := DecodeMembers(w, buff, env, r, shape);
      if k < |w.members| {
        if r == InputRegisters {
          MarkWindowFailed(w, env.now);
          FailedWindowAbsorbs(old(tags), w, k, buff, old(converters.table), env);
        } else {
          threw := true;
        }
      }
    }

    /** `UpdateCoils` / `UpdateDiscreteInputs`: read the window's bits and give each tag the bit at its offset. */
    method ReadBitWindow(r: Region, w: Window, env: Env, ghost shape: seq<Tag>, ghost prior: seq<Request>) returns (q: Request)
      requires !IsRegisterRegion(r) && BusSound(env.bus) && env.slave == slaveId
      requires SameShape(tags, shape) && WindowFits(shape, w, r)
      modifies this`tags
      ensures PassState(tags, converters.table, prior + [q], false) ==
        ReadWindow(PassState(old(tags), converters.table, prior, false), w, r, env)
    {
      q := Request(slaveId, ReadFunction(r), w.begin, w.length);
      var reply := env.bus(q);
      if reply.Bits? {
        DeliverBits(w, reply.bits, env.now, r, shape);
      } else {
        MarkWindowFailed(w, env.now);
      }
    }

    /** The success branch of the bit readers: each member of the window gets the bit at its offset, quality GOOD. */
    method DeliverBits(w: Window, bits: seq<bool>, now: int, ghost r: Region, ghost shape: seq<Tag>)
      requires SameShape(tags, shape) && WindowFits(shape, w, r) && |bits| == w.length
      modifies this`tags
      ensures tags == Overwrite(old(tags), Indices(w.members), t => BitTag(t, w, bits, now))
    {
      ghost var g := t => BitTag(t, w, bits, now);
      var k := 0;
      while k < |w.members|
        invariant 0 <= k <= |w.members|
        invariant tags == Overwrite(old(tags), Indices(w.members[..k]), g)
        invariant SameShape(tags, shape)
      {
        var m := w.members[k];
        assert m in w.members;
        var t := tags[m.index];
        assert g(t) == SetValue(t, Some(Bit(bits[t.addr.begin - w.begin])), Good, now);
        tags := tags[m.index := SetValue(t, Some(Bit(bits[t.addr.begin - w.begin])), Good, now)];
        IndicesSnoc(w.members, k);
        OverwriteStep(old(tags), Indices(w.members[..k]), m.index, g);
        k := k + 1;
      }
      assert w.members[..k] == w.members;
    }

    /** One window of region `r`, read by the reader for its kind. */
    method ReadOneWindow(r: Region, w: Window, env: Env, ghost shape: seq<Tag>, ghost prior: seq<Request>)
      returns (q: Request, threw: bool)
      requires BusSound(env.bus) && env.slave == slaveId && env.byteOrder == byteOrder && TableValid(converters.table)
      requires SameShape(tags, shape) && WindowFits(shape, w, r)
      modifies this`tags, converters
      ensures TableValid(converters.table) && SameShape(tags, shape)
      ensures PassState(tags, converters.table, prior + [q], threw) ==
        ReadWindow(PassState(old(tags), old(converters.table), prior, false), w, r, env)
    {
      if IsRegisterRegion(r) {
        q, threw := ReadRegisterWindow(r, w, env, shape, prior);
      } else {
        q := ReadBitWindow(r, w, env, shape, prior);
        threw := false;
      }
    }

    /** The windows of one region, read in order until one throws. */
    method ReadWindows(r: Region, ws: seq<Window>, env: Env, ghost shape: seq<Tag>, ghost prior: seq<Request>)
      returns (sent: seq<Request>, threw: bool)
      requires BusSound(env.bus) && env.slave == slaveId && env.byteOrder == byteOrder && TableValid(converters.table)
      requires SameShape(tags, shape) && forall w :: w in ws ==> WindowFits(shape, w, r)
      modifies this`tags, converters
      ensures TableValid(converters.table) && SameShape(tags, shape)
      ensures PassState(tags, converters.table, prior + sent, threw) ==
        ReadAll(PassState(old(tags), old(converters.table), prior, false), ws, r, env)
    {
      ghost var s0 := PassState(tags, converters.table, prior, false);
      sent := [];
      threw := false;
      for j := 0 to |ws|
        invariant TableValid(converters.table) && SameShape(tags, shape)
        invariant PassState(tags, converters.table, prior + sent, false) == ReadAll(s0, ws[..j], r, env)
      {
        assert ws[j] in ws;
        var q;
        q, threw := ReadOneWindow(r, ws[j], env, shape, prior + sent);
        ReadAllSnoc(s0, ws, r, env, j);
        assert prior + sent + [q] == prior + (sent + [q]);
        sent := sent + [q];
        if threw {
          ReadAllStops(s0, ws, r, env, j + 1);
          return;
        }
      }
      assert ws[..|ws|] == ws;
    }

    /** The region groups of `Update` and `Write`: each listed tag goes to the group of its region, in list order. */
    method GroupByRegion(idx: seq<nat>) returns (coils: seq<Member>, discreteInputs: seq<Member>, inputRegisters: seq<Member>, holdingRegisters: seq<Member>)
      requires forall k :: 0 <= k < |idx| ==> idx[k] < |tags|
      ensures coils == RegionMembers(tags, idx, Coils)
      ensures discreteInputs == RegionMembers(tags, idx, DiscreteInputs)
      ensures inputRegisters == RegionMembers(tags, idx, InputRegisters)
      ensures holdingRegisters == RegionMembers(tags, idx, HoldingRegisters)
    {
      coils, discreteInputs, inputRegisters, holdingRegisters := [], [], [], [];
      for j := 0 to |idx|
        invariant coils == RegionMembers(tags, idx[..j], Coils)
        invariant discreteInputs == RegionMembers(tags, idx[..j], DiscreteInputs)
        invariant inputRegisters == RegionMembers(tags, idx[..j], InputRegisters)
        invariant holdingRegisters == RegionMembers(tags, idx[..j], HoldingRegisters)
      {
        var t := tags[idx[j]];
        var m := Member(idx[j], t.addr.begin, t.addr.length);
        match t.addr.region {
          case Coils => coils := coils + [m];
          case DiscreteInputs => discreteInputs := discreteInputs + [m];
          case InputRegisters => inputRegisters := inputRegisters + [m];
          case HoldingRegisters => holdingRegisters := holdingRegisters + [m];
        }
        assert idx[..j + 1][..j] == idx[..j];
      }
      assert idx[..|idx|] == idx;
    }

    /** The four loops of `Update` over the region windows: coils, discrete inputs, input and holding registers. */
    method ReadRegions(cws: seq<Window>, dws: seq<Window>, iws: seq<Window>, hws: seq<Window>, env: Env, ghost shape: seq<Tag>)
      returns (requests: seq<Request>, threw: bool)
      requires BusSound(env.bus) && env.slave == slaveId && env.byteOrder == byteOrder && TableValid(converters.table)
      requires SameShape(tags, shape)
      requires forall w :: w in cws ==> WindowFits(shape, w, Coils)
      requires forall w :: w in dws ==> WindowFits(shape, w, DiscreteInputs)
      requires forall w :: w in iws ==> WindowFits(shape, w, InputRegisters)
      requires forall w :: w in hws ==> WindowFits(shape, w, HoldingRegisters)
      modifies this`tags, converters
      ensures TableValid(converters.table) && SameShape(tags, shape)
      ensures PassState(tags, converters.table, requests, threw) ==
        ReadAll(ReadAll(ReadAll(ReadAll(PassState(old(tags), old(converters.table), [], false),
          cws, Coils, env), dws, DiscreteInputs, env), iws, InputRegisters, env), hws, HoldingRegisters, env)
    {
      var sent;
      requests, threw := ReadWindows(Coils, cws, env, shape, []);
      assert [] + requests == requests;
      sent, threw := ReadWindows(DiscreteInputs, dws, env, shape, requests);
      requests := requests + sent;
      sent, threw := ReadWindows(InputRegisters, iws, env, shape, requests);
      requests := requests + sent;
      sent, threw := ReadWindows(HoldingRegisters, hws, env, shape, requests);
      requests := requests + sent;
    }

    /** The I/O half of `Update`: group the due tags and, when there are any, read their windows. */
    method PollDue(due: seq<nat>, now: int, bus: Bus, decode: Decoder, slice: Slicer) returns (requests: seq<Request>, threw: bool)
      requires Valid() && BusSound(bus) && SliceSound(slice)
      requires forall k :: 0 <= k < |due| ==> due[k] < |tags|
      modifies this`tags, converters
      ensures Valid()
      ensures var e := Polled(old(tags), due, slice, Env(slaveId, bus, decode, byteOrder, now), old(converters.table));
        tags == e.tags && converters.table == e.table && requests == e.sent && threw == e.thrown
    {
      ghost var tags0 := tags;
      var coils, discreteInputs, inputRegisters, holdingRegisters := GroupByRegion(due);
      requests, threw := [], false;
      if |due| > 0 {
        var env := Env(slaveId, bus, decode, byteOrder, now);
        RegionWindowsFit(tags0, due, slice, Coils);
        RegionWindowsFit(tags0, due, slice, DiscreteInputs);
        RegionWindowsFit(tags0, due, slice, InputRegisters);
        RegionWindowsFit(tags0, due, slice, HoldingRegisters);
        requests, threw := ReadRegions(slice(coils), slice(discreteInputs), slice(inputRegisters), slice(holdingRegisters), env, tags0);
        SameShapeKeepsConfig(tags, tags0);
      }
    }

    /**
     * `Update(force)`: the scheduler's due tags are polled and its next deadline is returned.
     * The scheduler throws on a tag without a group dictionary before anything is read;
     * a holding-register window can throw during the pass.
     */
    method Update(force: bool, now: int, bus: Bus, decode: Decoder, slice: Slicer) returns (threw: bool, nextTime: int, requests: seq<Request>)
      requires Valid() && BusSound(bus) && SliceSound(slice)
      modifies this`tags, converters
      ensures Valid()
      ensures !Configured(old(tags)) ==> threw && requests == [] && tags == old(tags) && converters.table == old(converters.table)
      ensures Configured(old(tags)) ==> nextTime == NextTime(old(tags), policy, now, force)
      ensures Configured(old(tags)) ==>
        var e := Polled(old(tags), DuePrefix(old(tags), policy, now, force, |old(tags)|), slice,
          Env(slaveId, bus, decode, byteOrder, now), old(converters.table));
        tags == e.tags && converters.table == e.table && requests == e.sent && threw == e.thrown
    {
      var ok, due;
      ok, due, nextTime := NeedToUpdate(tags, policy, now, force);
      if !ok {
        return true, nextTime, [];
      }
      forall k | 0 <= k < |due| ensures due[k] < |tags| {
        assert due[k] in due;
      }
      requests, threw := PollDue(due, now, bus, decode, slice);
    }

    /** `tc.GetBytes(buff, v)`: the encoding overwrites the front of the scratch buffer. */
    static method CopyBytes(scratch: array<Byte>, bytes: seq<Byte>)
      requires |bytes| <= scratch.Length
      modifies scratch
      ensures scratch[..] == bytes + old(scratch[..])[|bytes|..]
    {
      for c := 0 to |bytes|
        invariant forall i :: 0 <= i < c ==> scratch[i] == bytes[i]
        invariant forall i :: c <= i < scratch.Length ==> scratch[i] == old(scratch[i])
      {
        scratch[c] := bytes[c];
      }
      assert scratch[..] == bytes + old(scratch[..])[|bytes|..];
    }

    /** `values[b + i] = BitConverter.ToUInt16(buff, i * 2)` for the tag's registers. */
    static method PutRegisterWords(words: array<Word>, b: int, length: nat, scratch: array<Byte>)
      requires 0 <= b && b + length <= words.Length && 2 * length <= scratch.Length
      modifies words
      ensures words[..] == PutWords(old(words[..]), b, length, scratch[..])
    {
      for i := 0 to length
        invariant words[..] == PutWords(old(words[..]), b, i, scratch[..])
      {
        words[b + i] := WordAt(scratch[..], i);
      }
    }

    /** One tag of a register write window: encode into the scratch buffer, copy its registers out. */
    static method PackInto(words: array<Word>, scratch: array<Byte>, bytes: seq<Byte>, b: int, length: nat)
      requires |bytes| <= scratch.Length && 0 <= b && b + length <= words.Length && 2 * length <= scratch.Length
      modifies words, scratch
      ensures scratch[..] == bytes + old(scratch[..])[|bytes|..]
      ensures words[..] == PutWords(old(words[..]), b, length, scratch[..])
    {
      CopyBytes(scratch, bytes);
      PutRegisterWords(words, b, length, scratch);
    }

    /** The register payload of one holding-register write window; `None` where `Write` throws. */
    method PackRegisters(w: Window, values: seq<(string, Value)>, encode: Encoder, env: WriteEnv) returns (payload: Option<seq<Word>>)
      requires WindowFits(tags, w, HoldingRegisters)
      requires env.byteOrder == byteOrder && TableValid(env.table) && TableStable(env.table, converters.table, byteOrder)
      modifies converters
      ensures payload.Some? ==> TableStable(env.table, converters.table, byteOrder)
      ensures converters.table == env.table || converters.table == FullTable(byteOrder)
      ensures var p := PackPrefix(tags, w, values, encode, env, |w.members|);
        payload == if p.None? then None else Some(p.value.words)
    {
      var words := new Word[w.length](_ => 0);
      var scratch := new Byte[ScratchSize](_ => 0);
      assert words[..] == seq(w.length, _ => 0);
      assert scratch[..] == seq(ScratchSize, _ => 0);
      for k := 0 to |w.members|
        invariant TableStable(env.table, converters.table, byteOrder)
        invariant PackPrefix(tags, w, values, encode, env, k) == Some(Packing(words[..], scratch[..]))
      {
        var ok := PackTag(w, k, values, encode, env, words, scratch);
        if !ok {
          return None;
        }
      }
      payload := Some(words[..]);
    }

    /** The body of the packing loop for member k: look its value up, encode it, copy its registers. */
    method PackTag(w: Window, k: nat, values: seq<(string, Value)>, encode: Encoder, env: WriteEnv, words: array<Word>, scratch: array<Byte>)
      returns (ok: bool)
      requires k < |w.members| && WindowFits(tags, w, HoldingRegisters)
      requires env.byteOrder == byteOrder && TableValid(env.table) && TableStable(env.table, converters.table, byteOrder)
      requires PackPrefix(tags, w, values, encode, env, k) == Some(Packing(words[..], scratch[..]))
      modifies converters, words, scratch
      ensures ok ==> TableStable(env.table, converters.table, byteOrder)
      ensures converters.table == env.table || converters.table == FullTable(byteOrder)
      ensures ok ==> PackPrefix(tags, w, values, encode, env, k + 1) == Some(Packing(words[..], scratch[..]))
      ensures !ok ==> PackPrefix(tags, w, values, encode, env, |w.members|).None?
    {
      assert w.members[k] in w.members;
      var t := tags[w.members[k].index];
      var v := Lookup(values, t.cfg.name);
      if v.None? {
        PackThrows(tags, w, values, encode, env, k);
        return false;
      }
      var c := ConverterOf(t.cfg.valueType, env.table);
      if c.None? {
        PackThrows(tags, w, values, encode, env, k);
        return false;
      }
      var bytes := encode(c.value, v.value);
      if |bytes| > ScratchSize || 2 * t.addr.length > ScratchSize {
        PackThrows(tags, w, values, encode, env, k);
        return false;
      }
      PackStep(tags, w, values, encode, env, k, Packing(words[..], scratch[..]), bytes);
      PackInto(words, scratch, bytes, t.addr.begin - w.begin, t.addr.length);
      ok := true;
    }

    /** The coil payload of one coil write window, filled in member order; `None` where `Write` throws. */
    method CoilValues(w: Window, values: seq<(string, Value)>) returns (bits: Option<seq<bool>>)
      requires WindowFits(tags, w, Coils)
      ensures bits == CoilPrefix(tags, w, values, |w.members|)
    {
      var vals := new bool[w.length](_ => false);
      assert vals[..] == seq(w.length, _ => false);
      var i := 0;
      for k := 0 to |w.members|
        invariant i == k
        invariant CoilPrefix(tags, w, values, k) == Some(vals[..])
      {
        var v := Lookup(values, tags[w.members[k].index].cfg.name);
        if i >= vals.Length || !(v.Some? && v.value.Bit?) {
          CoilStaysNone(tags, w, values, k + 1, |w.members|);
          return None;
        }
        vals[i] := v.value.on;
        i := i + 1;
      }
      bits := Some(vals[..]);
    }

    /** The holding-register windows of a write, each sent as soon as it is packed. */
    method WriteRegisterWindows(ws: seq<Window>, values: seq<(string, Value)>, encode: Encoder, env: WriteEnv, wbus: WriteBus)
      returns (code: Option<int>, issued: seq<WriteRequest>)
      requires forall w :: w in ws ==> WindowFits(tags, w, HoldingRegisters)
      requires env.slave == slaveId && env.byteOrder == byteOrder
      requires TableValid(env.table) && converters.table == env.table
      modifies converters
      ensures converters.table == env.table || converters.table == FullTable(byteOrder)
      ensures Outcome(code, issued) == Issue(RegisterPlan(tags, ws, values, encode, env), wbus)
    {
      ghost var plan := RegisterPlan(tags, ws, values, encode, env);
      code := Some(0);
      issued := [];
      for j := 0 to |ws|
        invariant TableStable(env.table, converters.table, byteOrder)
        invariant |issued| == j && forall k :: 0 <= k < j ==> plan[k] == Some(issued[k]) && wbus(issued[k])
      {
        assert ws[j] in ws;
        var payload := PackRegisters(ws[j], values, encode, env);
        if payload.None? {
          IssueStopsAt(plan, wbus, issued);
          code := None;
          return;
        }
        var q := WriteRequest(slaveId, WriteMultipleRegisters, ws[j].begin, WordPayload(payload.value));
        if !wbus(q) {
          IssueStopsAt(plan, wbus, issued);
          issued := issued + [q];
          code := None;
          return;
        }
        issued := issued + [q];
      }
      IssueStopsAt(plan, wbus, issued);
    }

    /** The coil windows of a write, each sent as soon as its payload is filled. */
    method WriteCoilWindows(ws: seq<Window>, values: seq<(string, Value)>, env: WriteEnv, wbus: WriteBus)
      returns (code: Option<int>, issued: seq<WriteRequest>)
      requires forall w :: w in ws ==> WindowFits(tags, w, Coils)
      requires env.slave == slaveId
      ensures Outcome(code, issued) == Issue(CoilPlan(tags, ws, values, env), wbus)
    {
      ghost var plan := CoilPlan(tags, ws, values, env);
      code := Some(0);
      issued := [];
      for j := 0 to |ws|
        invariant |issued| == j && forall k :: 0 <= k < j ==> plan[k] == Some(issued[k]) && wbus(issued[k])
      {
        assert ws[j] in ws;
        var bits := CoilValues(ws[j], values);
        if bits.None? {
          IssueStopsAt(plan, wbus, issued);
          code := None;
          return;
        }
        var q := WriteRequest(slaveId, WriteMultipleCoils, ws[j].begin, BitPayload(bits.value));
        if !wbus(q) {
          IssueStopsAt(plan, wbus, issued);
          issued := issued + [q];
          code := None;
          return;
        }
        issued := issued + [q];
      }
      IssueStopsAt(plan, wbus, issued);
    }

    /** `Write(tagsValues)`: the known names' tags, holding-register windows first, then coil windows. */
    method Write(values: seq<(string, Value)>, encode: Encoder, wbus: WriteBus, slice: Slicer) returns (code: Option<int>, issued: seq<WriteRequest>)
      requires Valid() && SliceSound(slice)
      modifies converters
      ensures Valid()
      ensures converters.table == old(converters.table) || converters.table == FullTable(byteOrder)
      ensures Outcome(code, issued) ==
        Issue(PlannedWrites(tags, Selected(tags, values), slice, values, encode, WriteEnv(slaveId, old(converters.table), byteOrder)), wbus)
    {
      var sel: seq<nat> := [];
      for j := 0 to |values|
        invariant sel == Selected(tags, values[..j])
      {
        match Find(tags, values[j].0) {
          case Some(i) => sel := sel + [i];
          case None =>
        }
        assert values[..j + 1][..j] == values[..j];
      }
      assert values[..|values|] == values;
      code := Some(0);
      issued := [];
      if |sel| > 0 {
        var env := WriteEnv(slaveId, converters.table, byteOrder);
        var coils, _, _, holdingRegisters := GroupByRegion(sel);
        RegionWindowsFit(tags, sel, slice, HoldingRegisters);
        RegionWindowsFit(tags, sel, slice, Coils);
        var hws := slice(holdingRegisters);
        var cws := slice(coils);
        IssueAppend(RegisterPlan(tags, hws, values, encode, env), CoilPlan(tags, cws, values, env), wbus);
        code, issued := WriteRegisterWindows(hws, values, encode, env, wbus);
        if code == Some(0) {
          var code2, issued2 := WriteCoilWindows(cws, values, env, wbus);
          code := code2;
          issued := issued + issued2;
        }
      }
    }

    /** `foreach (var t in Tags) t.SetValue(null, BAD_COMM_FAILURE)`. */
    method MarkCommFailure(now: int)
      modifies this`tags
      ensures tags == CommFailed(old(tags), now)
    {
      var k := 0;
      while k < |tags|
        invariant 0 <= k <= |tags| && |tags| == |old(tags)|
        invariant forall i :: 0 <= i < k ==> tags[i] == SetValue(old(tags)[i], None, BadCommFailure, now)
        invariant forall i :: k <= i < |tags| ==> tags[i] == old(tags)[i]
      {
        tags := tags[k := SetValue(tags[k], None, BadCommFailure, now)];
        k := k + 1;
      }
    }

    /**
     * `IOUpdate`: poll when the connection is open (forced on the first pass after a reconnect);
     * otherwise try to reconnect, and on failure mark every tag and back off.  When `Update`
     * throws, the exception leaves `IOUpdate` before `forceRead` is cleared.
     */
    method IOUpdate(now: int, isOpen: bool, connectOk: bool, bus: Bus, decode: Decoder, slice: Slicer)
      returns (threw: bool, nextTime: int, success: bool, requests: seq<Request>)
      requires Valid() && BusSound(bus) && SliceSound(slice)
      modifies this`tags, this`forceRead, converters
      ensures Valid()
      ensures threw ==> isOpen && forceRead == old(forceRead)
      ensures !threw ==> (success <==> isOpen) && forceRead == !isOpen
      ensures isOpen && !Configured(old(tags)) ==> threw && requests == [] && tags == old(tags) && converters.table == old(converters.table)
      ensures isOpen && Configured(old(tags)) ==> nextTime == NextTime(old(tags), policy, now, old(forceRead))
      ensures isOpen && Configured(old(tags)) ==>
        var e := Polled(old(tags), DuePrefix(old(tags), policy, now, old(forceRead), |old(tags)|), slice,
          Env(slaveId, bus, decode, byteOrder, now), old(converters.table));
        tags == e.tags && converters.table == e.table && requests == e.sent && threw == e.thrown
      ensures !isOpen ==> !threw && requests == [] && converters.table == old(converters.table)
      ensures !isOpen && connectOk ==> nextTime == 0 && tags == old(tags)
      ensures !isOpen && !connectOk ==> nextTime == now + policy.badCommWaitPeriod && tags == CommFailed(old(tags), now)
    {
      threw, nextTime, success, requests := false, 0, false, [];
      if isOpen {
        threw, nextTime, requests := Update(forceRead, now, bus, decode, slice);
        if threw {
          return;
        }
        forceRead := false;
        success := true;
      } else {
        forceRead := true;
        if !connectOk {
          nextTime := now + policy.badCommWaitPeriod;
          MarkCommFailure(now);
        }
      }
    }
  }
}
