/**
 * What one polling pass of a Modbus device does to its tags
 * (RPCExp/Modbus/ModbusDevice.cs): the converter table, the grouping of due
 * tags by region, the window reads and the requests they issue.  The class
 * in module `Modbus` is proved to follow these definitions.
 */
module ModbusPolling {
  import opened Wrappers
  import opened Numeric
  import opened Tags
  import opened Windows
  import opened Scheduler

  datatype FrameType = Ip | Rtu | Ascii

  /** Default register byte order of a device. */
  const DefaultByteOrder: seq<Byte> := [2, 3, 0, 1]

  /** A register type converter: the value type it handles and the byte order it was built with. */
  datatype Converter = Converter(valueType: ValueType, byteOrder: seq<Byte>)

  /** `TypeConverterAbstract.GetValue` on the bytes from a tag's offset onwards. */
  type Decoder = (Converter, seq<Byte>) -> Value

  predicate HasConverter(vt: ValueType)
  {
    vt == Float || vt == Int16 || vt == Int32
  }

  /** The table `UpdateTypeConverters` builds: exactly Float, Int16 and Int32, all with the given byte order. */
  function FullTable(bo: seq<Byte>): (t: map<ValueType, Converter>)
    ensures forall vt :: vt in t <==> HasConverter(vt)
    ensures forall vt :: vt in t ==> t[vt] == Converter(vt, bo)
    ensures t.Keys == {Float, Int16, Int32}
  {
    map[Float := Converter(Float, bo), Int16 := Converter(Int16, bo), Int32 := Converter(Int32, bo)]
  }

  /** The shared table is empty until first used, and full afterwards. */
  predicate TableValid(t: map<ValueType, Converter>)
  {
    t == map[] || t.Keys == {Float, Int16, Int32}
  }

  /** The converter a lookup of `vt` yields when the table was `t` and the device's byte order is `bo`. */
  function ConverterFor(t: map<ValueType, Converter>, bo: seq<Byte>, vt: ValueType): Converter
  {
    if vt in t then t[vt] else Converter(vt, bo)
  }

  /** During a pass the table is the one it started as, or it was empty and got filled with the device's order. */
  predicate TableStable(t0: map<ValueType, Converter>, t: map<ValueType, Converter>, bo: seq<Byte>)
  {
    t == t0 || (t0 == map[] && t == FullTable(bo))
  }

  /** Looking a supported type up in a stable table yields the converter of the start of the pass. */
  lemma StableLookup(t0: map<ValueType, Converter>, t: map<ValueType, Converter>, bo: seq<Byte>, vt: ValueType)
    requires TableValid(t0) && TableStable(t0, t, bo) && HasConverter(vt)
    ensures TableValid(t)
    ensures vt in t ==> t[vt] == ConverterFor(t0, bo, vt)
    ensures vt !in t ==> t0 == map[] && TableStable(t0, FullTable(bo), bo) && Converter(vt, bo) == ConverterFor(t0, bo, vt)
  {
    if vt !in t {
      assert t == t0;
    }
  }

  predicate IsRegisterRegion(r: Region)
  {
    r == InputRegisters || r == HoldingRegisters
  }

  /** The read function used per region; discrete inputs are read with the coil function. */
  function ReadFunction(r: Region): (fc: FunctionCode)
    ensures IsRegisterRegion(r) <==> IsRegisterRead(fc)
    ensures fc != ReadDiscreteInputs
  {
    match r
    case Coils => ReadCoils
    case DiscreteInputs => ReadCoils
    case InputRegisters => ReadInputRegisters
    case HoldingRegisters => ReadHoldingRegisters
  }

  /** Two tag lists that differ at most in the tags' runtime state. */
  predicate SameShape(a: seq<Tag>, b: seq<Tag>)
  {
    |a| == |b| &&
    forall i :: 0 <= i < |a| ==> a[i].cfg == b[i].cfg && a[i].addr == b[i].addr && a[i].groups == b[i].groups
  }

  function MemberOf(tags: seq<Tag>, i: nat): Member
    requires i < |tags|
  {
    Member(i, tags[i].addr.begin, tags[i].addr.length)
  }

  /** Every member of the window is a tag of region `r`, described faithfully and covered by the window. */
  predicate WindowFits(tags: seq<Tag>, w: Window, r: Region)
  {
    forall m :: m in w.members ==>
      m.index < |tags| && m == MemberOf(tags, m.index) && tags[m.index].addr.region == r && Covers(w, m)
  }

  /** What a pass is run with: the slave address, the transport, the decoder, the device's byte order and the clock. */
  datatype Env = Env(slave: Byte, bus: Bus, decode: Decoder, byteOrder: seq<Byte>, now: int)

  /**
   * A polling pass in progress: the tags, the shared converter table, the requests sent
   * so far, and whether an exception has ended the pass.
   */
  datatype PassState = PassState(tags: seq<Tag>, table: map<ValueType, Converter>, sent: seq<Request>, thrown: bool)

  function ReadRequest(w: Window, r: Region, env: Env): Request
  {
    Request(env.slave, ReadFunction(r), w.begin, w.length)
  }

  /** A member whose tag has no register converter: `GetTypeConverter` throws on it. */
  predicate Unconvertible(tags: seq<Tag>, m: Member)
  {
    m.index < |tags| && !HasConverter(tags[m.index].cfg.valueType)
  }

  /** Position of the first member whose converter lookup throws, or the number of members. */
  function FirstUnconvertible(tags: seq<Tag>, ms: seq<Member>): (k: nat)
    ensures k <= |ms|
    ensures forall j :: 0 <= j < k ==> !Unconvertible(tags, ms[j])
    ensures k < |ms| ==> Unconvertible(tags, ms[k])
  {
    if ms == [] then 0
    else if Unconvertible(tags, ms[0]) then 0
    else 1 + FirstUnconvertible(tags, ms[1..])
  }

  /** Lists that differ only in runtime state have the same unconvertible members. */
  lemma FirstUnconvertibleShape(a: seq<Tag>, b: seq<Tag>, ms: seq<Member>)
    requires SameShape(a, b)
    ensures FirstUnconvertible(a, ms) == FirstUnconvertible(b, ms)
  {
    if ms != [] {
      FirstUnconvertibleShape(a, b, ms[1..]);
    }
  }

  /** A tag of a failed window: no value, quality BAD. */
  function FailedTag(t: Tag, now: int): Tag
  {
    SetValue(t, None, Bad, now)
  }

  /** The byte offset of a tag in its window's register buffer. */
  function RegisterOffset(t: Tag, w: Window): int
  {
    2 * (t.addr.begin - w.begin)
  }

  /** A register tag after a successful read: decoded from the bytes at its offset with the converter the table yields. */
  function DecodedTag(t: Tag, w: Window, buff: seq<Byte>, table: map<ValueType, Converter>, env: Env): Tag
  {
    var off := RegisterOffset(t, w);
    if 0 <= off <= |buff| then
      SetValue(t, Some(env.decode(ConverterFor(table, env.byteOrder, t.cfg.valueType), buff[off..])), Good, env.now)
    else t
  }

  /** A coil or discrete-input tag after a successful read: the bit at its offset. */
  function BitTag(t: Tag, w: Window, bits: seq<bool>, now: int): Tag
  {
    var off := t.addr.begin - w.begin;
    if 0 <= off < |bits| then SetValue(t, Some(Bit(bits[off])), Good, now) else t
  }

  /**
   * The shared table after a register window's lookups: a lookup that misses (the table
   * is empty, or the type has no converter) rebuilds it with the device's byte order.
   */
  function TableAfterLookups(table: map<ValueType, Converter>, bo: seq<Byte>, ms: seq<Member>, k: nat): map<ValueType, Converter>
  {
    if k < |ms| || (|ms| > 0 && table == map[]) then FullTable(bo) else table
  }

  /** The window's members marked BAD. */
  function FailedWindow(tags: seq<Tag>, w: Window, now: int): (res: seq<Tag>)
    ensures SameShape(res, tags)
    ensures forall i :: 0 <= i < |tags| && i !in Indices(w.members) ==> res[i] == tags[i]
  {
    Overwrite(tags, Indices(w.members), t => FailedTag(t, now))
  }

  /** Marking a window BAD erases whatever the decoding loop had written into its first `k` members. */
  lemma FailedWindowAbsorbs(tags: seq<Tag>, w: Window, k: nat, buff: seq<Byte>, table: map<ValueType, Converter>, env: Env)
    requires k <= |w.members|
    ensures FailedWindow(Overwrite(tags, Indices(w.members[..k]), t => DecodedTag(t, w, buff, table, env)), w, env.now)
         == FailedWindow(tags, w, env.now)
  {
    var decoded := Overwrite(tags, Indices(w.members[..k]), t => DecodedTag(t, w, buff, table, env));
    forall i | 0 <= i < |tags| && i in Indices(w.members[..k])
      ensures i in Indices(w.members)
    {
      var m :| m in w.members[..k] && m.index == i;
      assert m in w.members;
    }
  }

  /**
   * A register reply unpacked into `buff`: the members are decoded in order until one has
   * no converter.  In an input-register window the exception is caught and every member is
   * marked BAD; in a holding-register window the members before it keep their new values
   * and the exception ends the pass.
   */
  function RegisterWindowRead(s: PassState, w: Window, r: Region, buff: seq<Byte>, env: Env, sent: seq<Request>): (res: PassState)
    requires IsRegisterRegion(r)
    ensures SameShape(res.tags, s.tags)
    ensures forall i :: 0 <= i < |s.tags| && i !in Indices(w.members) ==> res.tags[i] == s.tags[i]
    ensures res.table == s.table || res.table == FullTable(env.byteOrder)
    ensures res.sent == sent
    ensures res.thrown <==> r == HoldingRegisters && FirstUnconvertible(s.tags, w.members) < |w.members|
  {
    var k := FirstUnconvertible(s.tags, w.members);
    var table := TableAfterLookups(s.table, env.byteOrder, w.members, k);
    var decoded := t => DecodedTag(t, w, buff, s.table, env);
    if k == |w.members| then PassState(Overwrite(s.tags, Indices(w.members), decoded), table, sent, false)
    else if r == InputRegisters then PassState(FailedWindow(s.tags, w, env.now), table, sent, false)
    else PassState(Overwrite(s.tags, Indices(w.members[..k]), decoded), table, sent, true)
  }

  /** The pass after reading window `w` of region `r`; nothing happens once the pass has thrown. */
  function ReadWindow(s: PassState, w: Window, r: Region, env: Env): (res: PassState)
    ensures s.thrown ==> res == s
    ensures !s.thrown ==> res.sent == s.sent + [ReadRequest(w, r, env)]
    ensures SameShape(res.tags, s.tags)
    ensures forall i :: 0 <= i < |s.tags| && i !in Indices(w.members) ==> res.tags[i] == s.tags[i]
    ensures res.table == s.table || res.table == FullTable(env.byteOrder)
    ensures res.thrown <==> (s.thrown || (r == HoldingRegisters && env.bus(ReadRequest(w, r, env)).Registers? &&
      FirstUnconvertible(s.tags, w.members) < |w.members|))
  {
    if s.thrown then s
    else
      var q := ReadRequest(w, r, env);
      var sent := s.sent + [q];
      var failed := PassState(FailedWindow(s.tags, w, env.now), s.table, sent, false);
      match env.bus(q)
      case Registers(words) =>
        if IsRegisterRegion(r) then RegisterWindowRead(s, w, r, WordBytes(words), env, sent) else failed
      case Bits(bits) =>
        if !IsRegisterRegion(r) then PassState(Overwrite(s.tags, Indices(w.members), t => BitTag(t, w, bits, env.now)), s.table, sent, false)
        else failed
      case Failed => failed
  }

  /** What a window read does to its members and to the table, reply by reply. */
  lemma ReadWindowMembers(s: PassState, w: Window, r: Region, env: Env)
    requires !s.thrown
    ensures !(IsRegisterRegion(r) && env.bus(ReadRequest(w, r, env)).Registers?) ==> ReadWindow(s, w, r, env).table == s.table
    ensures (env.bus(ReadRequest(w, r, env)).Failed? ||
        (r == InputRegisters && env.bus(ReadRequest(w, r, env)).Registers? && FirstUnconvertible(s.tags, w.members) < |w.members|)) ==>
      forall i :: 0 <= i < |s.tags| && i in Indices(w.members) ==> ReadWindow(s, w, r, env).tags[i] == FailedTag(s.tags[i], env.now)
    ensures IsRegisterRegion(r) && env.bus(ReadRequest(w, r, env)).Registers? ==>
      ReadWindow(s, w, r, env).table == TableAfterLookups(s.table, env.byteOrder, w.members, FirstUnconvertible(s.tags, w.members))
    ensures IsRegisterRegion(r) && env.bus(ReadRequest(w, r, env)).Registers? && FirstUnconvertible(s.tags, w.members) == |w.members| ==>
      forall i :: 0 <= i < |s.tags| && i in Indices(w.members) ==>
        ReadWindow(s, w, r, env).tags[i] == DecodedTag(s.tags[i], w, WordBytes(env.bus(ReadRequest(w, r, env)).words), s.table, env)
    ensures r == HoldingRegisters && env.bus(ReadRequest(w, r, env)).Registers? ==>
      var k := FirstUnconvertible(s.tags, w.members);
      forall i :: 0 <= i < |s.tags| && i in Indices(w.members) ==>
        ReadWindow(s, w, r, env).tags[i] == if i in Indices(w.members[..k])
          then DecodedTag(s.tags[i], w, WordBytes(env.bus(ReadRequest(w, r, env)).words), s.table, env)
          else s.tags[i]
    ensures !IsRegisterRegion(r) && env.bus(ReadRequest(w, r, env)).Bits? ==>
      forall i :: 0 <= i < |s.tags| && i in Indices(w.members) ==>
        ReadWindow(s, w, r, env).tags[i] == BitTag(s.tags[i], w, env.bus(ReadRequest(w, r, env)).bits, env.now)
  {
  }

  /** The pass after reading the windows of one region in order. */
  function ReadAll(s: PassState, ws: seq<Window>, r: Region, env: Env): (res: PassState)
    ensures SameShape(res.tags, s.tags)
    ensures res.table == s.table || res.table == FullTable(env.byteOrder)
    ensures s.thrown ==> res == s
    ensures !s.thrown && r != HoldingRegisters ==> !res.thrown
    decreases |ws|
  {
    if ws == [] then s
    else ReadWindow(ReadAll(s, ws[..|ws| - 1], r, env), ws[|ws| - 1], r, env)
  }

  /** One more window read. */
  lemma ReadAllSnoc(s: PassState, ws: seq<Window>, r: Region, env: Env, k: nat)
    requires k < |ws|
    ensures ReadAll(s, ws[..k + 1], r, env) == ReadWindow(ReadAll(s, ws[..k], r, env), ws[k], r, env)
  {
    assert ws[..k + 1][..k] == ws[..k];
  }

  /** Once a window has thrown, the remaining windows of the region are not read. */
  lemma {:induction false} ReadAllStops(s: PassState, ws: seq<Window>, r: Region, env: Env, n: nat)
    requires n <= |ws| && ReadAll(s, ws[..n], r, env).thrown
    ensures ReadAll(s, ws, r, env) == ReadAll(s, ws[..n], r, env)
    decreases |ws|
  {
    if n < |ws| {
      var init := ws[..|ws| - 1];
      assert init[..n] == ws[..n];
      ReadAllStops(s, init, r, env, n);
    } else {
      assert ws[..n] == ws;
    }
  }

  /** Reading windows changes only runtime state, and only of tags that are members of some window. */
  lemma {:induction false} ReadAllFrame(s: PassState, ws: seq<Window>, r: Region, env: Env)
    ensures forall i :: 0 <= i < |s.tags| && (forall w :: w in ws ==> i !in Indices(w.members)) ==>
      ReadAll(s, ws, r, env).tags[i] == s.tags[i]
    decreases |ws|
  {
    if ws != [] {
      var init := ws[..|ws| - 1];
      ReadAllFrame(s, init, r, env);
      forall i | 0 <= i < |s.tags| && (forall w :: w in ws ==> i !in Indices(w.members))
        ensures ReadAll(s, ws, r, env).tags[i] == s.tags[i]
      {
        assert ws[|ws| - 1] in ws;
        forall w | w in init ensures i !in Indices(w.members) {
          assert w in ws;
        }
      }
    }
  }

  /** A region that did not throw sent one request per window, in window order. */
  lemma {:induction false} ReadAllSentAll(s: PassState, ws: seq<Window>, r: Region, env: Env)
    requires !ReadAll(s, ws, r, env).thrown
    ensures ReadAll(s, ws, r, env).sent == s.sent + ReadRequests(ws, env.slave, ReadFunction(r))
    decreases |ws|
  {
    if ws != [] {
      var n := |ws| - 1;
      ReadAllSentAll(s, ws[..n], r, env);
      ReadRequestsSnoc(ws, env.slave, ReadFunction(r), n);
      assert ws[..n + 1] == ws;
    }
  }

  /** A region sends a prefix of its windows' requests. */
  lemma {:induction false} ReadAllSentPrefix(s: PassState, ws: seq<Window>, r: Region, env: Env)
    ensures ReadAll(s, ws, r, env).sent <= s.sent + ReadRequests(ws, env.slave, ReadFunction(r))
    decreases |ws|
  {
    if ws != [] {
      var n := |ws| - 1;
      var init := ws[..n];
      ReadAllSentPrefix(s, init, r, env);
      if !ReadAll(s, init, r, env).thrown {
        ReadAllSentAll(s, init, r, env);
      }
      var before := s.sent + ReadRequests(init, env.slave, ReadFunction(r));
      ReadRequestsSnoc(ws, env.slave, ReadFunction(r), n);
      assert ws[..n + 1] == ws;
      assert s.sent + ReadRequests(ws, env.slave, ReadFunction(r)) == before + [ReadRequest(ws[n], r, env)];
    }
  }

  /** Only a holding-register window with a member whose type has no converter throws. */
  lemma {:induction false} ReadAllThrows(s: PassState, ws: seq<Window>, r: Region, env: Env)
    requires !s.thrown && ReadAll(s, ws, r, env).thrown
    ensures r == HoldingRegisters
    ensures exists j, m :: 0 <= j < |ws| && m in ws[j].members && Unconvertible(s.tags, m)
    decreases |ws|
  {
    var n := |ws| - 1;
    var init := ws[..n];
    var x := ReadAll(s, init, r, env);
    if x.thrown {
      ReadAllThrows(s, init, r, env);
      var j, m :| 0 <= j < |init| && m in init[j].members && Unconvertible(s.tags, m);
      assert init[j] == ws[j];
    } else {
      var k := FirstUnconvertible(x.tags, ws[n].members);
      assert ws[n].members[k] in ws[n].members;
      assert Unconvertible(s.tags, ws[n].members[k]);
    }
  }

  /** The members a region's group receives from the due tags, in due order. */
  function RegionMembers(tags: seq<Tag>, due: seq<nat>, r: Region): seq<Member>
    decreases |due|
  {
    if due == [] then []
    else
      var i := due[|due| - 1];
      RegionMembers(tags, due[..|due| - 1], r) + (if i < |tags| && tags[i].addr.region == r then [MemberOf(tags, i)] else [])
  }

  /** A region's group holds exactly the due tags of that region. */
  lemma {:induction false} RegionMembersSpec(tags: seq<Tag>, due: seq<nat>, r: Region)
    ensures forall m :: m in RegionMembers(tags, due, r) <==>
      m.index in due && m.index < |tags| && m == MemberOf(tags, m.index) && tags[m.index].addr.region == r
    decreases |due|
  {
    if due != [] {
      var init := due[..|due| - 1];
      RegionMembersSpec(tags, init, r);
      forall m ensures m in RegionMembers(tags, due, r) <==>
        m.index in due && m.index < |tags| && m == MemberOf(tags, m.index) && tags[m.index].addr.region == r
      {
        if m.index in due && m.index < |tags| && m == MemberOf(tags, m.index) && tags[m.index].addr.region == r {
          var k :| 0 <= k < |due| && due[k] == m.index;
          if k < |due| - 1 {
            assert init[k] == m.index;
          }
        }
        if m in RegionMembers(tags, init, r) {
          assert m.index in init;
        }
      }
    }
  }

  /** Every due tag lands in the group of its own region and in no other. */
  lemma PartitionExact(tags: seq<Tag>, due: seq<nat>, k: nat, r: Region)
    requires k < |due| && due[k] < |tags|
    ensures MemberOf(tags, due[k]) in RegionMembers(tags, due, r) <==> tags[due[k]].addr.region == r
  {
    RegionMembersSpec(tags, due, r);
  }

  function RegionWindows(tags: seq<Tag>, due: seq<nat>, slice: Slicer, r: Region): seq<Window>
  {
    slice(RegionMembers(tags, due, r))
  }

  /** The windows of a region hold only due tags of that region, and cover them. */
  lemma RegionWindowsFit(tags: seq<Tag>, due: seq<nat>, slice: Slicer, r: Region)
    requires SliceSound(slice)
    ensures forall w :: w in RegionWindows(tags, due, slice, r) ==> WindowFits(tags, w, r)
    ensures forall w, i :: w in RegionWindows(tags, due, slice, r) && i in Indices(w.members) ==> i in due
  {
    RegionMembersSpec(tags, due, r);
    forall w, i | w in RegionWindows(tags, due, slice, r) && i in Indices(w.members) ensures i in due {
      var m :| m in w.members && m.index == i;
    }
  }

  /** The requests of a pass: coil windows, then discrete inputs, input registers and holding registers. */
  function PlannedRequests(tags: seq<Tag>, due: seq<nat>, slice: Slicer, slave: Byte): seq<Request>
  {
    if due == [] then []
    else
      ReadRequests(RegionWindows(tags, due, slice, Coils), slave, ReadCoils) +
      ReadRequests(RegionWindows(tags, due, slice, DiscreteInputs), slave, ReadCoils) +
      ReadRequests(RegionWindows(tags, due, slice, InputRegisters), slave, ReadInputRegisters) +
      ReadRequests(RegionWindows(tags, due, slice, HoldingRegisters), slave, ReadHoldingRegisters)
  }

  /**
   * A pass over the due tags `due` of `tags` starting from the shared table `table`: the
   * region windows are planned from the tags at the start, then read region by region.
   */
  function Polled(tags: seq<Tag>, due: seq<nat>, slice: Slicer, env: Env, table: map<ValueType, Converter>): PassState
  {
    var s0 := PassState(tags, table, [], false);
    if due == [] then s0
    else
      var s1 := ReadAll(s0, RegionWindows(tags, due, slice, Coils), Coils, env);
      var s2 := ReadAll(s1, RegionWindows(tags, due, slice, DiscreteInputs), DiscreteInputs, env);
      var s3 := ReadAll(s2, RegionWindows(tags, due, slice, InputRegisters), InputRegisters, env);
      ReadAll(s3, RegionWindows(tags, due, slice, HoldingRegisters), HoldingRegisters, env)
  }

  /** A pass changes only the runtime state of due tags, and the table only by rebuilding it. */
  lemma PolledOnlyDue(tags: seq<Tag>, due: seq<nat>, slice: Slicer, env: Env, table: map<ValueType, Converter>)
    requires SliceSound(slice)
    ensures SameShape(Polled(tags, due, slice, env, table).tags, tags)
    ensures forall i :: 0 <= i < |tags| && i !in due ==> Polled(tags, due, slice, env, table).tags[i] == tags[i]
    ensures Polled(tags, due, slice, env, table).table == table || Polled(tags, due, slice, env, table).table == FullTable(env.byteOrder)
  {
    if due != [] {
      var s0 := PassState(tags, table, [], false);
      var s1 := ReadAll(s0, RegionWindows(tags, due, slice, Coils), Coils, env);
      var s2 := ReadAll(s1, RegionWindows(tags, due, slice, DiscreteInputs), DiscreteInputs, env);
      var s3 := ReadAll(s2, RegionWindows(tags, due, slice, InputRegisters), InputRegisters, env);
      ReadAllFrame(s0, RegionWindows(tags, due, slice, Coils), Coils, env);
      ReadAllFrame(s1, RegionWindows(tags, due, slice, DiscreteInputs), DiscreteInputs, env);
      ReadAllFrame(s2, RegionWindows(tags, due, slice, InputRegisters), InputRegisters, env);
      ReadAllFrame(s3, RegionWindows(tags, due, slice, HoldingRegisters), HoldingRegisters, env);
      RegionWindowsFit(tags, due, slice, Coils);
      RegionWindowsFit(tags, due, slice, DiscreteInputs);
      RegionWindowsFit(tags, due, slice, InputRegisters);
      RegionWindowsFit(tags, due, slice, HoldingRegisters);
    }
  }

  /** A region other than the holding registers never throws and sends one request per window. */
  lemma RegionSent(s: PassState, ws: seq<Window>, r: Region, env: Env)
    requires !s.thrown && r != HoldingRegisters
    ensures !ReadAll(s, ws, r, env).thrown
    ensures ReadAll(s, ws, r, env).sent == s.sent + ReadRequests(ws, env.slave, ReadFunction(r))
  {
    ReadAllSentAll(s, ws, r, env);
  }

  /** The bit and input-register regions never throw, and send one request per window. */
  lemma FirstRegionsSent(tags: seq<Tag>, due: seq<nat>, slice: Slicer, env: Env, table: map<ValueType, Converter>)
    ensures var s1 := ReadAll(PassState(tags, table, [], false), RegionWindows(tags, due, slice, Coils), Coils, env);
      var s2 := ReadAll(s1, RegionWindows(tags, due, slice, DiscreteInputs), DiscreteInputs, env);
      var s3 := ReadAll(s2, RegionWindows(tags, due, slice, InputRegisters), InputRegisters, env);
      !s3.thrown &&
      s3.sent == ReadRequests(RegionWindows(tags, due, slice, Coils), env.slave, ReadCoils) +
        ReadRequests(RegionWindows(tags, due, slice, DiscreteInputs), env.slave, ReadCoils) +
        ReadRequests(RegionWindows(tags, due, slice, InputRegisters), env.slave, ReadInputRegisters)
  {
    var cws := RegionWindows(tags, due, slice, Coils);
    var dws := RegionWindows(tags, due, slice, DiscreteInputs);
    var iws := RegionWindows(tags, due, slice, InputRegisters);
    var s0 := PassState(tags, table, [], false);
    var s1 := ReadAll(s0, cws, Coils, env);
    var s2 := ReadAll(s1, dws, DiscreteInputs, env);
    var s3 := ReadAll(s2, iws, InputRegisters, env);
    var a := ReadRequests(cws, env.slave, ReadCoils);
    var b := ReadRequests(dws, env.slave, ReadCoils);
    var c := ReadRequests(iws, env.slave, ReadInputRegisters);
    RegionSent(s0, cws, Coils, env);
    assert s1.sent == a;
    RegionSent(s1, dws, DiscreteInputs, env);
    assert s2.sent == a + b;
    RegionSent(s2, iws, InputRegisters, env);
    assert s3.sent == a + b + c;
  }

  /** A pass sends a prefix of the planned requests, and all of them when it does not throw. */
  lemma PolledSent(tags: seq<Tag>, due: seq<nat>, slice: Slicer, env: Env, table: map<ValueType, Converter>)
    ensures Polled(tags, due, slice, env, table).sent <= PlannedRequests(tags, due, slice, env.slave)
    ensures !Polled(tags, due, slice, env, table).thrown ==> Polled(tags, due, slice, env, table).sent == PlannedRequests(tags, due, slice, env.slave)
  {
    if due != [] {
      var hws := RegionWindows(tags, due, slice, HoldingRegisters);
      var s1 := ReadAll(PassState(tags, table, [], false), RegionWindows(tags, due, slice, Coils), Coils, env);
      var s2 := ReadAll(s1, RegionWindows(tags, due, slice, DiscreteInputs), DiscreteInputs, env);
      var s3 := ReadAll(s2, RegionWindows(tags, due, slice, InputRegisters), InputRegisters, env);
      FirstRegionsSent(tags, due, slice, env, table);
      ReadAllSentPrefix(s3, hws, HoldingRegisters, env);
      if !ReadAll(s3, hws, HoldingRegisters, env).thrown {
        ReadAllSentAll(s3, hws, HoldingRegisters, env);
      }
      assert PlannedRequests(tags, due, slice, env.slave) == s3.sent + ReadRequests(hws, env.slave, ReadHoldingRegisters);
    }
  }

  /** A pass throws only when a due holding-register tag has a value type without a converter. */
  lemma PolledThrows(tags: seq<Tag>, due: seq<nat>, slice: Slicer, env: Env, table: map<ValueType, Converter>)
    requires SliceSound(slice) && Polled(tags, due, slice, env, table).thrown
    ensures exists i :: i in due && i < |tags| && tags[i].addr.region == HoldingRegisters && !HasConverter(tags[i].cfg.valueType)
  {
    var hws := RegionWindows(tags, due, slice, HoldingRegisters);
    var s1 := ReadAll(PassState(tags, table, [], false), RegionWindows(tags, due, slice, Coils), Coils, env);
    var s2 := ReadAll(s1, RegionWindows(tags, due, slice, DiscreteInputs), DiscreteInputs, env);
    var s3 := ReadAll(s2, RegionWindows(tags, due, slice, InputRegisters), InputRegisters, env);
    ReadAllThrows(s3, hws, HoldingRegisters, env);
    var j, m :| 0 <= j < |hws| && m in hws[j].members && Unconvertible(s3.tags, m);
    RegionWindowsFit(tags, due, slice, HoldingRegisters);
    assert hws[j] in hws;
    assert m.index in Indices(hws[j].members);
  }

  /** No request of a pass uses the discrete-input function, and every request reads. */
  lemma PlannedRequestsRead(tags: seq<Tag>, due: seq<nat>, slice: Slicer, slave: Byte)
    ensures forall q :: q in PlannedRequests(tags, due, slice, slave) ==>
      q.slave == slave && q.fc in {ReadCoils, ReadInputRegisters, ReadHoldingRegisters}
    ensures due == [] ==> PlannedRequests(tags, due, slice, slave) == []
    ensures due != [] ==> (|PlannedRequests(tags, due, slice, slave)| ==
      |RegionWindows(tags, due, slice, Coils)| + |RegionWindows(tags, due, slice, DiscreteInputs)| +
      |RegionWindows(tags, due, slice, InputRegisters)| + |RegionWindows(tags, due, slice, HoldingRegisters)|)
  {
  }

  /** Every tag after a failed reconnect: no value, quality BAD_COMM_FAILURE. */
  function CommFailed(tags: seq<Tag>, now: int): (res: seq<Tag>)
    ensures SameShape(res, tags)
    ensures forall i :: 0 <= i < |tags| ==> res[i].state == TagState(None, BadCommFailure, now)
  {
    seq(|tags|, i requires 0 <= i < |tags| => SetValue(tags[i], None, BadCommFailure, now))
  }

  /**
   * After a failed reconnect at `now`, every tag that keeps its own period is next due
   * `BadCommWaitPeriod` later, and no pass before that returns it.
   */
  lemma CommFailureBacksOff(tags: seq<Tag>, p: Policy, now: int, i: nat)
    requires i < |tags| && tags[i].groups.Some?
    requires Active(tags[i]) || !p.updateInActiveTags
    requires 0 < Horizon < p.badCommWaitPeriod
    ensures CommFailed(tags, now)[i].groups == tags[i].groups
    ensures TagNextTick(CommFailed(tags, now)[i], p) == now + p.badCommWaitPeriod
    ensures forall later :: now <= later < now + p.badCommWaitPeriod - Horizon ==>
      !Returned(CommFailed(tags, now)[i], p, later, false)
  {
    var t := CommFailed(tags, now)[i];
    assert t.groups == tags[i].groups;
    assert Active(t) == Active(tags[i]);
  }
}
