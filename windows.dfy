/**
 * Request windows and the Modbus transport as the device orchestrators see them
 * (RPCExp/Modbus/ModbusDevice.cs, RPCExp/Common/Device.cs).  The window slicer
 * (`MTagsGroup.Slice`) and the transport are collaborators: the slicer is a
 * function parameter that must return windows covering members of its input,
 * and the transport a function from requests to replies of the requested size.
 */
module Windows {
  import opened Numeric

  /** A tag handed to the slicer: its position in the device's tag list and its address. */
  datatype Member = Member(index: nat, begin: int, length: nat)

  /** A contiguous request window `(Begin, Length, members)`. */
  datatype Window = Window(begin: int, length: nat, members: seq<Member>)

  type Slicer = seq<Member> -> seq<Window>

  /** The window spans the member's first address and all its registers. */
  predicate Covers(w: Window, m: Member)
  {
    w.begin <= m.begin < w.begin + w.length && m.begin + m.length <= w.begin + w.length
  }

  /** What the device code relies on from the slicer: windows hold input members that they cover. */
  ghost predicate SliceSound(slice: Slicer)
  {
    forall ms: seq<Member>, w: Window, m: Member :: w in slice(ms) && m in w.members ==> m in ms && Covers(w, m)
  }

  /** Positions of a window's members. */
  function Indices(ms: seq<Member>): set<nat>
  {
    set m | m in ms :: m.index
  }

  /** One more member's position. */
  lemma IndicesSnoc(ms: seq<Member>, k: nat)
    requires k < |ms|
    ensures Indices(ms[..k + 1]) == Indices(ms[..k]) + {ms[k].index}
  {
    assert ms[..k + 1] == ms[..k] + [ms[k]];
  }

  /**
   * Modbus functions used by the gateway (Modbus Application Protocol Specification V1.1b3:
   * Read Coils 6.1, Read Discrete Inputs 6.2, Read Holding Registers 6.3, Read Input Registers 6.4,
   * Write Multiple Coils 6.11, Write Multiple Registers 6.12).
   */
  datatype FunctionCode =
    ReadCoils | ReadDiscreteInputs | ReadHoldingRegisters | ReadInputRegisters |
    WriteMultipleCoils | WriteMultipleRegisters

  function Code(fc: FunctionCode): (c: int)
    ensures 1 <= c <= 16
    ensures (IsBitRead(fc) || IsRegisterRead(fc)) <==> c <= 4
  {
    match fc
    case ReadCoils => 1
    case ReadDiscreteInputs => 2
    case ReadHoldingRegisters => 3
    case ReadInputRegisters => 4
    case WriteMultipleCoils => 15
    case WriteMultipleRegisters => 16
  }

  predicate IsBitRead(fc: FunctionCode) { fc == ReadCoils || fc == ReadDiscreteInputs }
  predicate IsRegisterRead(fc: FunctionCode) { fc == ReadHoldingRegisters || fc == ReadInputRegisters }

  /** Each function has its own code. */
  lemma CodeInjective(f: FunctionCode, g: FunctionCode)
    ensures Code(f) == Code(g) ==> f == g
  {
  }

  datatype Request = Request(slave: Byte, fc: FunctionCode, begin: int, length: nat)

  datatype Reply = Registers(words: seq<Word>) | Bits(bits: seq<bool>) | Failed

  /** The transport: every read either fails or answers with data. */
  type Bus = Request -> Reply

  /** Successful replies have the requested kind and size (the transport's contract). */
  ghost predicate BusSound(bus: Bus)
  {
    forall r: Request :: match bus(r)
      case Failed => true
      case Registers(ws) => IsRegisterRead(r.fc) && |ws| == r.length
      case Bits(bs) => IsBitRead(r.fc) && |bs| == r.length
  }

  /** A write request and its payload. */
  datatype Payload = WordPayload(words: seq<Word>) | BitPayload(bits: seq<bool>)
  datatype WriteRequest = WriteRequest(slave: Byte, fc: FunctionCode, begin: int, payload: Payload)

  /** The transport's write side: true when the device acknowledged the write. */
  type WriteBus = WriteRequest -> bool

  /** One read request per window, in window order. */
  function ReadRequests(ws: seq<Window>, slave: Byte, fc: FunctionCode): (rs: seq<Request>)
    ensures |rs| == |ws|
    ensures forall i :: 0 <= i < |ws| ==> rs[i] == Request(slave, fc, ws[i].begin, ws[i].length)
  {
    seq(|ws|, i requires 0 <= i < |ws| => Request(slave, fc, ws[i].begin, ws[i].length))
  }

  /** One more window's request. */
  lemma ReadRequestsSnoc(ws: seq<Window>, slave: Byte, fc: FunctionCode, k: nat)
    requires k < |ws|
    ensures ReadRequests(ws[..k + 1], slave, fc) == ReadRequests(ws[..k], slave, fc) + [Request(slave, fc, ws[k].begin, ws[k].length)]
  {
  }

  /** The byte buffer of a register reply: word k as little-endian bytes 2k, 2k+1 (`BitConverter.GetBytes`). */
  function WordBytes(ws: seq<Word>): (bs: seq<Byte>)
    ensures |bs| == 2 * |ws|
  {
    seq(2 * |ws|, i requires 0 <= i < 2 * |ws| => if i % 2 == 0 then ws[i / 2] % 0x100 else ws[i / 2] / 0x100)
  }

  /** `BitConverter.ToUInt16(buff, 2k)`: the little-endian word at bytes 2k, 2k+1. */
  function WordAt(bs: seq<Byte>, k: nat): (w: Word)
    requires 2 * k + 1 < |bs|
  {
    bs[2 * k] as int + 0x100 * (bs[2 * k + 1] as int)
  }

  /** Reading the buffer back word by word gives the reply's words. */
  lemma WordBytesRoundTrip(ws: seq<Word>, k: nat)
    requires k < |ws|
    ensures WordAt(WordBytes(ws), k) == ws[k]
  {
    var bs := WordBytes(ws);
    assert (2 * k) % 2 == 0 && (2 * k) / 2 == k;
    assert (2 * k + 1) % 2 == 1 && (2 * k + 1) / 2 == k;
    assert bs[2 * k] == ws[k] % 0x100 && bs[2 * k + 1] == ws[k] / 0x100;
  }

  /** The register-unpacking loop of the window readers. */
  method UnpackWords(ws: seq<Word>) returns (buff: seq<Byte>)
    ensures buff == WordBytes(ws)
    ensures forall k :: 0 <= k < |ws| ==> WordAt(buff, k) == ws[k]
  {
    var a := new Byte[2 * |ws|];
    var k := 0;
    while k < |ws|
      invariant 0 <= k <= |ws|
      invariant forall i :: 0 <= i < 2 * k ==> a[i] == WordBytes(ws)[i]
    {
      a[2 * k] := ws[k] % 0x100;
      a[2 * k + 1] := ws[k] / 0x100;
      k := k + 1;
    }
    buff := a[..];
    forall k | 0 <= k < |ws| ensures WordAt(buff, k) == ws[k] {
      WordBytesRoundTrip(ws, k);
    }
  }

  /** Replace the elements at `idx` by `g` of themselves (the per-window `SetValue` loops). */
  function Overwrite<T>(xs: seq<T>, idx: set<nat>, g: T -> T): (r: seq<T>)
    ensures |r| == |xs|
    ensures forall i :: 0 <= i < |xs| ==> r[i] == if i in idx then g(xs[i]) else xs[i]
  {
    seq(|xs|, i requires 0 <= i < |xs| => if i in idx then g(xs[i]) else xs[i])
  }

  /** One more element overwritten by an idempotent update. */
  lemma OverwriteStep<T>(xs: seq<T>, idx: set<nat>, j: nat, g: T -> T)
    requires j < |xs|
    requires forall x :: g(g(x)) == g(x)
    ensures Overwrite(xs, idx + {j}, g) == Overwrite(xs, idx, g)[j := g(Overwrite(xs, idx, g)[j])]
  {
  }
}
