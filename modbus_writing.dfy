/**
 * What `ModbusDevice.Write` sends (RPCExp/Modbus/ModbusDevice.cs): the tags
 * named in the request, their holding-register and coil windows, the packed
 * payloads and the order in which the writes go out.  An exception in
 * `Write` (a missing key, a type without converter, a failed cast, an index
 * outside the scratch buffer or the payload, a failed transport call) ends
 * the write; the model returns `None` for it.
 */
module ModbusWriting {
  import opened Wrappers
  import opened Numeric
  import opened Tags
  import opened Windows
  import opened DeviceQueries
  import opened ModbusPolling

  /** `TypeConverterAbstract.GetBytes`: the bytes a converter writes for a value. */
  type Encoder = (Converter, Value) -> seq<Byte>

  /** What a write is run with: the slave address and the converter table and byte order at its start. */
  datatype WriteEnv = WriteEnv(slave: Byte, table: map<ValueType, Converter>, byteOrder: seq<Byte>)

  /** Size of the scratch buffer a register tag's value is encoded into. */
  const ScratchSize: nat := 32

  /** The value given for `name` in the write request (`tagsValues[name]`). */
  function Lookup(values: seq<(string, Value)>, name: string): (r: Option<Value>)
    ensures r.None? <==> forall k :: 0 <= k < |values| ==> values[k].0 != name
    ensures r.Some? ==> exists k :: 0 <= k < |values| && values[k] == (name, r.value)
  {
    if values == [] then None
    else if values[0].0 == name then Some(values[0].1)
    else
      var r := Lookup(values[1..], name);
      assert r.Some? ==> exists k :: 1 <= k < |values| && values[k] == (name, r.value) by {
        if r.Some? {
          var k :| 0 <= k < |values[1..]| && values[1..][k] == (name, r.value);
          assert values[k + 1] == (name, r.value);
        }
      }
      r
  }

  /** The tags a write addresses: the known names of the request, in request order. */
  function Selected(tags: seq<Tag>, values: seq<(string, Value)>): (sel: seq<nat>)
    ensures forall k :: 0 <= k < |sel| ==> sel[k] < |tags|
    decreases |values|
  {
    if values == [] then []
    else
      var prev := Selected(tags, values[..|values| - 1]);
      match Find(tags, values[|values| - 1].0)
      case Some(i) => prev + [i]
      case None => prev
  }

  /** Unknown names are ignored; every known name addresses its tag, which has a value to write. */
  lemma {:induction false} SelectedSpec(tags: seq<Tag>, values: seq<(string, Value)>)
    ensures forall i :: i in Selected(tags, values) <==>
      exists k :: 0 <= k < |values| && Find(tags, values[k].0) == Some(i)
    ensures forall i :: i in Selected(tags, values) ==> i < |tags| && Lookup(values, tags[i].cfg.name).Some?
    decreases |values|
  {
    if values != [] {
      var init := values[..|values| - 1];
      SelectedSpec(tags, init);
      forall i ensures i in Selected(tags, values) <==> exists k :: 0 <= k < |values| && Find(tags, values[k].0) == Some(i) {
        if exists k :: 0 <= k < |values| && Find(tags, values[k].0) == Some(i) {
          var k :| 0 <= k < |values| && Find(tags, values[k].0) == Some(i);
          if k < |values| - 1 {
            assert init[k] == values[k];
          }
        }
        if i in Selected(tags, init) {
          var k :| 0 <= k < |init| && Find(tags, init[k].0) == Some(i);
          assert values[k] == init[k];
        }
      }
      forall i | i in Selected(tags, values) ensures i < |tags| && Lookup(values, tags[i].cfg.name).Some? {
        var k :| 0 <= k < |values| && Find(tags, values[k].0) == Some(i);
      }
    }
  }

  /** State of a register window being packed: the `values` words and the scratch buffer. */
  datatype Packing = Packing(words: seq<Word>, scratch: seq<Byte>)

  function PutWord(words: seq<Word>, b: int, length: nat, scratch: seq<Byte>, j: nat): Word
    requires 2 * length <= |scratch| && j < |words|
  {
    if b <= j < b + length then WordAt(scratch, j - b) else words[j]
  }

  /** The words of `length` registers taken from the scratch buffer and placed from word `b` on. */
  function PutWords(words: seq<Word>, b: int, length: nat, scratch: seq<Byte>): (r: seq<Word>)
    requires 2 * length <= |scratch|
    ensures |r| == |words|
    ensures forall j :: 0 <= j < |words| ==> r[j] == if b <= j < b + length then WordAt(scratch, j - b) else words[j]
  {
    seq(|words|, j requires 0 <= j < |words| => PutWord(words, b, length, scratch, j))
  }

  /** The packing after the members `w.members[..n]`; `None` once `Write` has thrown. */
  function PackPrefix(tags: seq<Tag>, w: Window, values: seq<(string, Value)>, encode: Encoder, env: WriteEnv, n: nat): (r: Option<Packing>)
    requires n <= |w.members| && WindowFits(tags, w, HoldingRegisters)
    ensures r.Some? ==> |r.value.words| == w.length && |r.value.scratch| == ScratchSize
  {
    if n == 0 then Some(Packing(seq(w.length, _ => 0), seq(ScratchSize, _ => 0)))
    else
      match PackPrefix(tags, w, values, encode, env, n - 1)
      case None => None
      case Some(p) =>
        assert w.members[n - 1] in w.members;
        PackNext(p, tags[w.members[n - 1].index], w, values, encode, env)
  }

  /** A tag `Write` can pack: it has a value and a converter, and its encoding and its registers fit the scratch buffer. */
  predicate Packable(t: Tag, values: seq<(string, Value)>, encode: Encoder, env: WriteEnv)
  {
    EncodedFor(t, values, encode, env).Some? && |EncodedFor(t, values, encode, env).value| <= ScratchSize &&
    2 * t.addr.length <= ScratchSize
  }

  /**
   * Packing one more tag: its encoding over the front of the scratch buffer, its registers
   * copied from there.  `None` when there is no value or no converter, when the encoding
   * overflows the scratch buffer, or when the tag has more registers than the buffer holds
   * (`ToUInt16` past its end).
   */
  function PackNext(p: Packing, t: Tag, w: Window, values: seq<(string, Value)>, encode: Encoder, env: WriteEnv): (r: Option<Packing>)
    requires |p.scratch| == ScratchSize
    ensures r.Some? ==> |r.value.words| == |p.words| && |r.value.scratch| == ScratchSize
    ensures r.Some? <==> Packable(t, values, encode, env)
  {
    match EncodedFor(t, values, encode, env)
    case None => None
    case Some(bytes) =>
      if |bytes| > ScratchSize || 2 * t.addr.length > ScratchSize then None
      else
        var scratch := bytes + p.scratch[|bytes|..];
        Some(Packing(PutWords(p.words, t.addr.begin - w.begin, t.addr.length, scratch), scratch))
  }

  /** One member of the window: packing continues with that tag's bytes in the scratch buffer. */
  lemma PackStep(tags: seq<Tag>, w: Window, values: seq<(string, Value)>, encode: Encoder, env: WriteEnv, k: nat, p: Packing, bytes: seq<Byte>)
    requires k < |w.members| && WindowFits(tags, w, HoldingRegisters)
    requires PackPrefix(tags, w, values, encode, env, k) == Some(p)
    requires EncodedFor(tags[w.members[k].index], values, encode, env) == Some(bytes) && |bytes| <= ScratchSize
    requires 2 * tags[w.members[k].index].addr.length <= ScratchSize
    ensures var t := tags[w.members[k].index];
      var scratch := bytes + p.scratch[|bytes|..];
      PackPrefix(tags, w, values, encode, env, k + 1) == Some(Packing(PutWords(p.words, t.addr.begin - w.begin, t.addr.length, scratch), scratch))
  {
    assert w.members[k] in w.members;
  }

  /** A member with no value or converter, or that overflows the scratch buffer, makes the whole window throw. */
  lemma PackThrows(tags: seq<Tag>, w: Window, values: seq<(string, Value)>, encode: Encoder, env: WriteEnv, k: nat)
    requires k < |w.members| && WindowFits(tags, w, HoldingRegisters)
    requires PackPrefix(tags, w, values, encode, env, k).Some?
    requires !Packable(tags[w.members[k].index], values, encode, env)
    ensures PackPrefix(tags, w, values, encode, env, |w.members|).None?
  {
    assert w.members[k] in w.members;
    assert PackPrefix(tags, w, values, encode, env, k + 1) ==
      PackNext(PackPrefix(tags, w, values, encode, env, k).value, tags[w.members[k].index], w, values, encode, env);
    PackStaysNone(tags, w, values, encode, env, k + 1, |w.members|);
  }

  /** A window packs exactly when every one of its members can be packed. */
  lemma {:induction false} PackPrefixSome(tags: seq<Tag>, w: Window, values: seq<(string, Value)>, encode: Encoder, env: WriteEnv, n: nat)
    requires n <= |w.members| && WindowFits(tags, w, HoldingRegisters)
    ensures PackPrefix(tags, w, values, encode, env, n).Some? <==>
      forall k :: 0 <= k < n ==> w.members[k].index < |tags| && Packable(tags[w.members[k].index], values, encode, env)
    decreases n
  {
    if n > 0 {
      PackPrefixSome(tags, w, values, encode, env, n - 1);
      assert w.members[n - 1] in w.members;
    }
  }

  /** Once packing has thrown, it stays thrown. */
  lemma {:induction false} PackStaysNone(tags: seq<Tag>, w: Window, values: seq<(string, Value)>, encode: Encoder, env: WriteEnv, k: nat, n: nat)
    requires k <= n <= |w.members| && WindowFits(tags, w, HoldingRegisters)
    requires PackPrefix(tags, w, values, encode, env, k).None?
    ensures PackPrefix(tags, w, values, encode, env, n).None?
    decreases n
  {
    if k < n {
      PackStaysNone(tags, w, values, encode, env, k, n - 1);
    }
  }

  /**
   * The bytes the converter writes for the value given for tag `t`; `None` when the request
   * has no value for it (`tagsValues[t.Name]`) or its type has no converter (`GetTypeConverter`).
   */
  function EncodedFor(t: Tag, values: seq<(string, Value)>, encode: Encoder, env: WriteEnv): (r: Option<seq<Byte>>)
    ensures r.Some? <==> Lookup(values, t.cfg.name).Some? && HasConverter(t.cfg.valueType)
  {
    match Lookup(values, t.cfg.name)
    case None => None
    case Some(v) =>
      if HasConverter(t.cfg.valueType) then Some(encode(ConverterFor(env.table, env.byteOrder, t.cfg.valueType), v))
      else None
  }

  /** Registers of the window that belong to no member among the first `n` are written as 0. */
  lemma {:induction false} PackGapsZero(tags: seq<Tag>, w: Window, values: seq<(string, Value)>, encode: Encoder, env: WriteEnv, n: nat, j: int)
    requires n <= |w.members| && WindowFits(tags, w, HoldingRegisters)
    requires PackPrefix(tags, w, values, encode, env, n).Some?
    requires 0 <= j < w.length
    requires forall k :: 0 <= k < n ==> !(w.members[k].begin - w.begin <= j < w.members[k].begin - w.begin + w.members[k].length)
    ensures PackPrefix(tags, w, values, encode, env, n).value.words[j] == 0
  {
    if n > 0 {
      PackGapsZero(tags, w, values, encode, env, n - 1, j);
      assert w.members[n - 1] in w.members;
    }
  }

  /**
   * A register of member k holds word i of that member's encoding when no later member
   * overlaps it and the encoding reaches that word.
   */
  lemma {:induction false} PackMemberWords(tags: seq<Tag>, w: Window, values: seq<(string, Value)>, encode: Encoder, env: WriteEnv, n: nat, k: nat, i: nat)
    requires n <= |w.members| && WindowFits(tags, w, HoldingRegisters)
    requires PackPrefix(tags, w, values, encode, env, n).Some?
    requires k < n && i < w.members[k].length
    requires forall l :: k < l < n ==>
      !(w.members[l].begin <= w.members[k].begin + i < w.members[l].begin + w.members[l].length)
    requires EncodedFor(tags[w.members[k].index], values, encode, env).Some?
    requires 2 * i + 1 < |EncodedFor(tags[w.members[k].index], values, encode, env).value|
    ensures PackPrefix(tags, w, values, encode, env, n).value.words[w.members[k].begin - w.begin + i] ==
      WordAt(EncodedFor(tags[w.members[k].index], values, encode, env).value, i)
    decreases n
  {
    assert w.members[k] in w.members;
    if k < n - 1 {
      PackMemberWords(tags, w, values, encode, env, n - 1, k, i);
      assert w.members[n - 1] in w.members;
    }
  }

  /** The coil payload after the members `w.members[..n]`, filled in member order as written. */
  function CoilPrefix(tags: seq<Tag>, w: Window, values: seq<(string, Value)>, n: nat): (r: Option<seq<bool>>)
    requires n <= |w.members| && WindowFits(tags, w, Coils)
    ensures r.Some? ==> |r.value| == w.length && n <= w.length
  {
    if n == 0 then Some(seq(w.length, _ => false))
    else
      match CoilPrefix(tags, w, values, n - 1)
      case None => None
      case Some(vs) =>
        if n - 1 >= |vs| then None
        else
          match Lookup(values, tags[w.members[n - 1].index].cfg.name)
          case Some(Bit(on)) => Some(vs[n - 1 := on])
          case _ => None
  }

  /** Once filling the coil payload has thrown, it stays thrown. */
  lemma {:induction false} CoilStaysNone(tags: seq<Tag>, w: Window, values: seq<(string, Value)>, k: nat, n: nat)
    requires k <= n <= |w.members| && WindowFits(tags, w, Coils)
    requires CoilPrefix(tags, w, values, k).None?
    ensures CoilPrefix(tags, w, values, n).None?
    decreases n
  {
    if k < n {
      CoilStaysNone(tags, w, values, k, n - 1);
    }
  }

  /** The value written for member k lands at position k of the payload; the rest is false. */
  lemma {:induction false} CoilPositional(tags: seq<Tag>, w: Window, values: seq<(string, Value)>, n: nat)
    requires n <= |w.members| && WindowFits(tags, w, Coils)
    requires CoilPrefix(tags, w, values, n).Some?
    ensures forall k :: 0 <= k < n ==>
      Lookup(values, tags[w.members[k].index].cfg.name) == Some(Bit(CoilPrefix(tags, w, values, n).value[k]))
    ensures forall k :: n <= k < w.length ==> !CoilPrefix(tags, w, values, n).value[k]
  {
    if n > 0 {
      CoilPositional(tags, w, values, n - 1);
    }
  }

  /** When the window's members are its coils in address order, each value lands on its own coil. */
  lemma CoilContiguous(tags: seq<Tag>, w: Window, values: seq<(string, Value)>)
    requires WindowFits(tags, w, Coils)
    requires forall k :: 0 <= k < |w.members| ==> w.members[k].begin == w.begin + k
    requires CoilPrefix(tags, w, values, |w.members|).Some?
    ensures forall k :: 0 <= k < |w.members| ==>
      Lookup(values, tags[w.members[k].index].cfg.name) ==
        Some(Bit(CoilPrefix(tags, w, values, |w.members|).value[w.members[k].begin - w.begin]))
  {
    CoilPositional(tags, w, values, |w.members|);
  }

  /** With a gap between two coils the second value is written to the gap and its own coil gets false. */
  lemma CoilGapMisplaces(t0: Tag, t2: Tag)
    requires t0.addr == Address(Coils, 0, 1) && t2.addr == Address(Coils, 2, 1)
    requires t0.cfg.name == "a" && t2.cfg.name == "b"
    ensures var tags := [t0, t2];
      var w := Window(0, 3, [Member(0, 0, 1), Member(1, 2, 1)]);
      WindowFits(tags, w, Coils) &&
      CoilPrefix(tags, w, [("a", Bit(true)), ("b", Bit(true))], 2) == Some([true, true, false])
  {
    var tags := [t0, t2];
    var w := Window(0, 3, [Member(0, 0, 1), Member(1, 2, 1)]);
    var values := [("a", Bit(true)), ("b", Bit(true))];
    assert Lookup(values, "a") == Some(Bit(true));
    assert Lookup(values, "b") == Some(Bit(true));
    assert seq(3, _ => false) == [false, false, false];
    assert CoilPrefix(tags, w, values, 0) == Some([false, false, false]);
    assert [false, false, false][0 := true] == [true, false, false];
    assert CoilPrefix(tags, w, values, 1) == Some([true, false, false]);
    assert [true, false, false][1 := true] == [true, true, false];
  }

  function RegisterWrite(tags: seq<Tag>, w: Window, values: seq<(string, Value)>, encode: Encoder, env: WriteEnv): Option<WriteRequest>
    requires WindowFits(tags, w, HoldingRegisters)
  {
    match PackPrefix(tags, w, values, encode, env, |w.members|)
    case None => None
    case Some(p) => Some(WriteRequest(env.slave, WriteMultipleRegisters, w.begin, WordPayload(p.words)))
  }

  function CoilWrite(tags: seq<Tag>, w: Window, values: seq<(string, Value)>, env: WriteEnv): Option<WriteRequest>
    requires WindowFits(tags, w, Coils)
  {
    match CoilPrefix(tags, w, values, |w.members|)
    case None => None
    case Some(bits) => Some(WriteRequest(env.slave, WriteMultipleCoils, w.begin, BitPayload(bits)))
  }

  /** The holding-register writes, one per window. */
  function RegisterPlan(tags: seq<Tag>, ws: seq<Window>, values: seq<(string, Value)>, encode: Encoder, env: WriteEnv): (plan: seq<Option<WriteRequest>>)
    requires forall w :: w in ws ==> WindowFits(tags, w, HoldingRegisters)
    ensures |plan| == |ws|
  {
    seq(|ws|, j requires 0 <= j < |ws| => RegisterWrite(tags, ws[j], values, encode, env))
  }

  /** The coil writes, one per window. */
  function CoilPlan(tags: seq<Tag>, ws: seq<Window>, values: seq<(string, Value)>, env: WriteEnv): (plan: seq<Option<WriteRequest>>)
    requires forall w :: w in ws ==> WindowFits(tags, w, Coils)
    ensures |plan| == |ws|
  {
    seq(|ws|, j requires 0 <= j < |ws| => CoilWrite(tags, ws[j], values, env))
  }

  /** The writes of a request in order, holding-register windows first; `None` where `Write` throws. */
  function PlannedWrites(tags: seq<Tag>, sel: seq<nat>, slice: Slicer, values: seq<(string, Value)>, encode: Encoder, env: WriteEnv): (plan: seq<Option<WriteRequest>>)
    requires SliceSound(slice)
    ensures sel == [] ==> plan == []
    ensures sel != [] ==> |plan| == |RegionWindows(tags, sel, slice, HoldingRegisters)| + |RegionWindows(tags, sel, slice, Coils)|
    ensures forall q :: Some(q) in plan ==>
      q.slave == env.slave &&
      ((q.fc == WriteMultipleRegisters && q.payload.WordPayload?) || (q.fc == WriteMultipleCoils && q.payload.BitPayload?))
  {
    if sel == [] then []
    else
      RegionWindowsFit(tags, sel, slice, HoldingRegisters);
      RegionWindowsFit(tags, sel, slice, Coils);
      RegisterPlan(tags, RegionWindows(tags, sel, slice, HoldingRegisters), values, encode, env) +
      CoilPlan(tags, RegionWindows(tags, sel, slice, Coils), values, env)
  }

  /** Result of `Write`: `Some(0)` when it returned, `None` when it threw, and the writes sent. */
  datatype Outcome = Outcome(code: Option<int>, issued: seq<WriteRequest>)

  /** Sending the planned writes in order, stopping at the first one that throws or fails. */
  function Issue(plan: seq<Option<WriteRequest>>, wbus: WriteBus): Outcome
    decreases |plan|
  {
    if plan == [] then Outcome(Some(0), [])
    else
      match plan[0]
      case None => Outcome(None, [])
      case Some(q) =>
        if !wbus(q) then Outcome(None, [q])
        else
          var rest := Issue(plan[1..], wbus);
          Outcome(rest.code, [q] + rest.issued)
  }

  /** The sent writes are a prefix of the plan, all acknowledged but possibly the last; the result is 0 exactly when all went through. */
  lemma {:induction false} IssueSpec(plan: seq<Option<WriteRequest>>, wbus: WriteBus)
    ensures var o := Issue(plan, wbus);
      |o.issued| <= |plan| &&
      (forall k :: 0 <= k < |o.issued| ==> plan[k] == Some(o.issued[k])) &&
      (forall k :: 0 <= k < |o.issued| - 1 ==> wbus(o.issued[k])) &&
      (o.code == Some(0) || o.code == None) &&
      (o.code == Some(0) <==> forall k :: 0 <= k < |plan| ==> plan[k].Some? && wbus(plan[k].value)) &&
      (o.code == Some(0) ==> |o.issued| == |plan|)
    decreases |plan|
  {
    if plan != [] && plan[0].Some? && wbus(plan[0].value) {
      IssueSpec(plan[1..], wbus);
      var rest := Issue(plan[1..], wbus);
      assert forall k :: 1 <= k < |plan| ==> plan[k] == plan[1..][k - 1];
      if rest.code == Some(0) {
        forall k | 0 <= k < |plan| ensures plan[k].Some? && wbus(plan[k].value) {
          if k > 0 {
            assert plan[k] == plan[1..][k - 1];
          }
        }
      }
      if forall k :: 0 <= k < |plan| ==> plan[k].Some? && wbus(plan[k].value) {
        forall k | 0 <= k < |plan[1..]| ensures plan[1..][k].Some? && wbus(plan[1..][k].value) {
          assert plan[1..][k] == plan[k + 1];
        }
      }
    }
  }

  /** Where the method stops: after `j` acknowledged writes, at a throw or a failed write, or at the end. */
  lemma {:induction false} IssueStopsAt(plan: seq<Option<WriteRequest>>, wbus: WriteBus, sent: seq<WriteRequest>)
    requires |sent| <= |plan|
    requires forall k :: 0 <= k < |sent| ==> plan[k] == Some(sent[k]) && wbus(sent[k])
    ensures |sent| == |plan| ==> Issue(plan, wbus) == Outcome(Some(0), sent)
    ensures |sent| < |plan| && plan[|sent|].None? ==> Issue(plan, wbus) == Outcome(None, sent)
    ensures |sent| < |plan| && plan[|sent|].Some? && !wbus(plan[|sent|].value) ==>
      Issue(plan, wbus) == Outcome(None, sent + [plan[|sent|].value])
    decreases |sent|
  {
    if sent != [] {
      IssueStopsAt(plan[1..], wbus, sent[1..]);
      assert [sent[0]] + sent[1..] == sent;
      if |sent| < |plan| && plan[|sent|].Some? {
        var q := plan[|sent|].value;
        assert plan[1..][|sent[1..]|] == plan[|sent|];
        assert [sent[0]] + (sent[1..] + [q]) == sent + [q];
      }
    }
  }

  /** Sending two plans one after the other: the second starts only when the first went through. */
  lemma {:induction false} IssueAppend(a: seq<Option<WriteRequest>>, b: seq<Option<WriteRequest>>, wbus: WriteBus)
    ensures Issue(a + b, wbus) ==
      if Issue(a, wbus).code == Some(0) then Outcome(Issue(b, wbus).code, Issue(a, wbus).issued + Issue(b, wbus).issued)
      else Issue(a, wbus)
    decreases |a|
  {
    if a == [] {
      assert a + b == b;
    } else {
      assert (a + b)[0] == a[0];
      assert (a + b)[1..] == a[1..] + b;
      if a[0].Some? && wbus(a[0].value) {
        IssueAppend(a[1..], b, wbus);
        var ra := Issue(a[1..], wbus);
        if ra.code == Some(0) {
          assert [a[0].value] + (ra.issued + Issue(b, wbus).issued) == ([a[0].value] + ra.issued) + Issue(b, wbus).issued;
        }
      }
    }
  }
}
