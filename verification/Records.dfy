// The four ring-buffer records, their C memory layout, and the loader's
// flag dispatch with its little-endian decoding.
module Records {
  import opened Arith

  const EVENT_GPU_KERNEL_LAUNCH: U8 := 1
  const EVENT_GPU_MALLOC: U8 := 2
  const EVENT_GPU_MEMCPY: U8 := 3
  const EVENT_GPU_STREAM_SYNC: U8 := 4

  const DIR_HTOD: U8 := 0
  const DIR_DTOH: U8 := 1

  type Comm = s: seq<U8> | |s| == 150 witness seq(150, _ => 0)

  datatype Event =
    | KernelLaunch(pid: U32, comm: Comm,
                   gridx: U32, gridy: U32, gridz: U32,
                   blockx: U32, blocky: U32, blockz: U32,
                   totalBlocks: U64, threadsBlock: U64, totalThreads: U64)
    | MemAlloc(pid: U32, comm: Comm, byteSize: U64)
    | Memcpy(pid: U32, comm: Comm, byteSize: U64, kind: U8)
    | StreamSync(pid: U32, comm: Comm, startTime: U64, endTime: U64, deltaNs: U64)
  {
    function Flag(): U8 {
      match this
      case KernelLaunch(_, _, _, _, _, _, _, _, _, _, _) => EVENT_GPU_KERNEL_LAUNCH
      case MemAlloc(_, _, _) => EVENT_GPU_MALLOC
      case Memcpy(_, _, _, _) => EVENT_GPU_MEMCPY
      case StreamSync(_, _, _, _, _) => EVENT_GPU_STREAM_SYNC
    }
  }

  // The bytes of a record that no handler writes: reserved ring memory is not
  // cleared, so they hold anything.
  datatype Padding = Padding(pad: seq<U8>, gap: seq<U8>, tail: seq<U8>) {
    ghost predicate Valid() {
      |pad| == 3 && |gap| == 2 && |tail| == 7
    }
  }

  // ---- little-endian integers ------------------------------------------

  function Pow256(k: nat): (p: nat)
    ensures p > 0
  {
    if k == 0 then 1 else 256 * Pow256(k - 1)
  }

  function ToLE(n: nat, k: nat): (s: seq<U8>)
    ensures |s| == k
  {
    if k == 0 then [] else [n % 256] + ToLE(n / 256, k - 1)
  }

  function FromLE(s: seq<U8>): (n: nat)
    ensures n < Pow256(|s|)
  {
    if s == [] then 0 else s[0] + 256 * FromLE(s[1..])
  }

  lemma {:induction false} FromToLE(n: nat, k: nat)
    requires n < Pow256(k)
    ensures FromLE(ToLE(n, k)) == n
  {
    if k > 0 {
      FromToLE(n / 256, k - 1);
      assert ToLE(n, k)[1..] == ToLE(n / 256, k - 1);
    }
  }

  lemma {:induction false} ToFromLE(s: seq<U8>)
    ensures ToLE(FromLE(s), |s|) == s
  {
    if s != [] {
      ToFromLE(s[1..]);
      assert FromLE(s) / 256 == FromLE(s[1..]) && FromLE(s) % 256 == s[0];
      assert s == [s[0]] + s[1..];
    }
  }

  // Little-endian: byte i is the i-th digit to base 256, the least first.
  lemma {:induction false} ByteOf(n: nat, k: nat, i: nat)
    requires i < k
    ensures ToLE(n, k)[i] == n / Pow256(i) % 256
  {
    if i > 0 {
      ByteOf(n / 256, k - 1, i - 1);
      DigitShift(n, Pow256(i - 1));
    }
  }

  lemma DigitShift(n: nat, b: nat)
    requires b > 0
    ensures n / 256 / b == n / (256 * b)
  {
    var x := n / 256;
    var q, r := x / b, x % b;
    assert x == b * q + r;
    assert n == 256 * (b * q) + (256 * r + n % 256);
    Reassociate(b, q);
    UniqueQuotient(n, 256 * b, q, 256 * r + n % 256);
  }

  lemma Reassociate(b: int, q: int)
    ensures 256 * (b * q) == (256 * b) * q
  {
  }

  lemma UniqueQuotient(n: nat, d: nat, q: nat, r: nat)
    requires d > 0 && r < d && n == d * q + r
    ensures n / d == q
  {
    var p := n / d;
    assert n == d * p + n % d;
    if p < q {
      Farther(d, p, q);
    } else if q < p {
      Farther(d, q, p);
    }
  }

  lemma Farther(d: nat, p: nat, q: nat)
    requires p < q
    ensures d * q >= d * p + d
  {
    assert d * q == d * p + d * (q - p);
    AtLeastOnce(d, q - p);
  }

  lemma AtLeastOnce(d: nat, k: nat)
    requires k >= 1
    ensures d * k >= d
  {
  }

  // Conversely every byte weighs 256 times the one before it.
  lemma FromFour(s: seq<U8>)
    requires |s| == 4
    ensures FromLE(s) == s[0] as nat + 0x100 * s[1] as nat + 0x1_0000 * s[2] as nat + 0x100_0000 * s[3] as nat
  {
    assert s[1..][1..] == s[2..] && s[2..][1..] == s[3..] && s[3..][1..] == [];
    assert FromLE(s[3..]) == s[3];
    assert FromLE(s[2..]) == s[2] as nat + 256 * FromLE(s[3..]);
    assert FromLE(s[1..]) == s[1] as nat + 256 * FromLE(s[2..]);
  }

  lemma FromEight(s: seq<U8>)
    requires |s| == 8
    ensures FromLE(s) == FromLE(s[..4]) + 0x1_0000_0000 * FromLE(s[4..])
  {
    FromFour(s[..4]);
    assert s[1..][1..] == s[2..] && s[2..][1..] == s[3..] && s[3..][1..] == s[4..];
    assert FromLE(s[3..]) == s[3] as nat + 256 * FromLE(s[4..]);
    assert FromLE(s[2..]) == s[2] as nat + 256 * FromLE(s[3..]);
    assert FromLE(s[1..]) == s[1] as nat + 256 * FromLE(s[2..]);
  }

  function LE4(n: U32): (s: seq<U8>)
    ensures |s| == 4
  {
    ToLE(n, 4)
  }

  function LE8(n: U64): (s: seq<U8>)
    ensures |s| == 8
  {
    ToLE(n, 8)
  }

  function Get4(s: seq<U8>): U32
    requires |s| == 4
  {
    assert Pow256(4) == 0x1_0000_0000;
    FromLE(s)
  }

  function Get8(s: seq<U8>): U64
    requires |s| == 8
  {
    assert Pow256(8) == 0x1_0000_0000_0000_0000 by {
      assert Pow256(4) == 0x1_0000_0000;
      assert Pow256(8) == 256 * (256 * (256 * (256 * Pow256(4))));
    }
    FromLE(s)
  }

  lemma Get4LE4(n: U32, s: seq<U8>)
    requires |s| == 4
    ensures Get4(LE4(n)) == n
    ensures LE4(Get4(s)) == s
  {
    assert Pow256(4) == 0x1_0000_0000;
    FromToLE(n, 4);
    ToFromLE(s);
  }

  lemma Get8LE8(n: U64, s: seq<U8>)
    requires |s| == 8
    ensures Get8(LE8(n)) == n
    ensures LE8(Get8(s)) == s
  {
    assert Pow256(4) == 0x1_0000_0000;
    assert Pow256(8) == 256 * (256 * (256 * (256 * Pow256(4))));
    FromToLE(n, 8);
    ToFromLE(s);
  }

  // ---- C layout ----------------------------------------------------------

  // Field widths in declaration order, compiler padding included.
  const LAUNCH_WIDTHS: seq<nat> := [1, 3, 4, 150, 2, 4, 4, 4, 4, 4, 4, 8, 8, 8]
  const MEMALLOC_WIDTHS: seq<nat> := [1, 3, 4, 150, 2, 8]
  const MEMCPY_WIDTHS: seq<nat> := [1, 3, 4, 150, 2, 8, 1, 7]
  const STREAM_WIDTHS: seq<nat> := [1, 3, 4, 150, 2, 8, 8, 8]

  function Widths(flag: U8): seq<nat>
    requires 1 <= flag <= 4
  {
    match flag
    case 1 => LAUNCH_WIDTHS
    case 2 => MEMALLOC_WIDTHS
    case 3 => MEMCPY_WIDTHS
    case _ => STREAM_WIDTHS
  }

  ghost predicate Fit(fs: seq<seq<U8>>, ws: seq<nat>) {
    |fs| == |ws| && forall i :: 0 <= i < |fs| ==> |fs[i]| == ws[i]
  }

  function Total(ws: seq<nat>): nat {
    if ws == [] then 0 else ws[0] + Total(ws[1..])
  }

  function Join(fs: seq<seq<U8>>): seq<U8> {
    if fs == [] then [] else fs[0] + Join(fs[1..])
  }

  // The fields a handler stores, one byte string each.
  function Fields(e: Event, p: Padding): seq<seq<U8>> {
    var header := [[e.Flag()], p.pad, LE4(e.pid), e.comm, p.gap];
    match e
    case KernelLaunch(_, _, g1, g2, g3, b1, b2, b3, tb, th, tt) =>
      header + [LE4(g1), LE4(g2), LE4(g3), LE4(b1), LE4(b2), LE4(b3), LE8(tb), LE8(th), LE8(tt)]
    case MemAlloc(_, _, n) => header + [LE8(n)]
    case Memcpy(_, _, n, kind) => header + [LE8(n), [kind], p.tail]
    case StreamSync(_, _, s, t, d) => header + [LE8(s), LE8(t), LE8(d)]
  }

  function Layout(e: Event, p: Padding): seq<U8> {
    Join(Fields(e, p))
  }

  // ---- the loader's decoder ------------------------------------------------

  datatype ReadResult = Decoded(event: Event) | EmptyRecord | ParseError | UnknownFlag

  // Consumes the raw sample field by field, as a sequential reader does.
  function Split(raw: seq<U8>, ws: seq<nat>): (fs: seq<seq<U8>>)
    requires Total(ws) <= |raw|
    ensures Fit(fs, ws)
  {
    if ws == [] then [] else [raw[..ws[0]]] + Split(raw[ws[0]..], ws[1..])
  }

  function FromFields(flag: U8, fs: seq<seq<U8>>): Event
    requires 1 <= flag <= 4
    requires Fit(fs, Widths(flag))
  {
    match flag
    case 1 => KernelLaunch(Get4(fs[2]), fs[3], Get4(fs[5]), Get4(fs[6]), Get4(fs[7]),
                           Get4(fs[8]), Get4(fs[9]), Get4(fs[10]),
                           Get8(fs[11]), Get8(fs[12]), Get8(fs[13]))
    case 2 => MemAlloc(Get4(fs[2]), fs[3], Get8(fs[5]))
    case 3 => Memcpy(Get4(fs[2]), fs[3], Get8(fs[5]), fs[6][0])
    case _ => StreamSync(Get4(fs[2]), fs[3], Get8(fs[5]), Get8(fs[6]), Get8(fs[7]))
  }

  function Dispatch(raw: seq<U8>): ReadResult {
    if |raw| < 1 then EmptyRecord
    else if !(1 <= raw[0] <= 4) then UnknownFlag
    else if |raw| < Total(Widths(raw[0])) then ParseError
    else Decoded(FromFields(raw[0], Split(raw, Widths(raw[0]))))
  }

  // ---- round trip ----------------------------------------------------------

  lemma {:induction false} JoinLength(fs: seq<seq<U8>>, ws: seq<nat>)
    requires Fit(fs, ws)
    ensures |Join(fs)| == Total(ws)
  {
    if fs != [] {
      JoinLength(fs[1..], ws[1..]);
    }
  }

  lemma SplitFirst(raw: seq<U8>, ws: seq<nat>)
    requires ws != [] && Total(ws) <= |raw|
    ensures Total(ws) == ws[0] + Total(ws[1..])
    ensures Split(raw, ws) == [raw[..ws[0]]] + Split(raw[ws[0]..], ws[1..])
  {
  }

  lemma JoinCons(f: seq<U8>, fs: seq<seq<U8>>)
    ensures Join([f] + fs) == f + Join(fs) && Join([]) == []
  {
    assert ([f] + fs)[1..] == fs;
  }

  lemma SplitNothing(raw: seq<U8>)
    ensures Total([]) == 0 && Split(raw, []) == [] && Join([]) == []
  {
  }

  lemma {:induction false} SplitJoin(fs: seq<seq<U8>>, tail: seq<U8>, ws: seq<nat>)
    requires Fit(fs, ws)
    ensures Total(ws) == |Join(fs)|
    ensures Split(Join(fs) + tail, ws) == fs
  {
    hide Join, Split, Total;
    JoinLength(fs, ws);
    if fs == [] {
      SplitNothing(Join(fs) + tail);
    } else {
      var raw, rest := Join(fs) + tail, Join(fs[1..]) + tail;
      SplitJoin(fs[1..], tail, ws[1..]);
      JoinCons(fs[0], fs[1..]);
      assert fs == [fs[0]] + fs[1..];
      SplitFirst(raw, ws);
      assert raw == fs[0] + rest;
      assert raw[..ws[0]] == fs[0] && raw[ws[0]..] == rest;
    }
  }

  lemma {:induction false} JoinSplit(raw: seq<U8>, ws: seq<nat>)
    requires Total(ws) <= |raw|
    ensures Join(Split(raw, ws)) == raw[..Total(ws)]
  {
    hide Join, Split, Total;
    if ws == [] {
      SplitNothing(raw);
    } else {
      SplitFirst(raw, ws);
      var rest := raw[ws[0]..];
      JoinSplit(rest, ws[1..]);
      JoinCons(raw[..ws[0]], Split(rest, ws[1..]));
      assert raw[..Total(ws)] == raw[..ws[0]] + rest[..Total(ws[1..])];
    }
  }

  lemma FieldWidths(e: Event, p: Padding)
    requires p.Valid()
    ensures Fit(Fields(e, p), Widths(e.Flag()))
  {
  }

  lemma FromFieldsFields(e: Event, p: Padding)
    requires p.Valid()
    ensures Fit(Fields(e, p), Widths(e.Flag()))
    ensures FromFields(e.Flag(), Fields(e, p)) == e
  {
    hide Get4, Get8, LE4, LE8;
    FieldWidths(e, p);
    forall n: U32 ensures Get4(LE4(n)) == n { Get4LE4(n, LE4(n)); }
    forall n: U64 ensures Get8(LE8(n)) == n { Get8LE8(n, LE8(n)); }
  }

  lemma LeadingFlag(e: Event, p: Padding, tail: seq<U8>)
    ensures |Layout(e, p)| > 0 && (Layout(e, p) + tail)[0] == e.Flag()
  {
    var fs := Fields(e, p);
    assert fs[0] == [e.Flag()];
    assert Join(fs) == fs[0] + Join(fs[1..]);
  }

  // Whatever the padding holds and whatever follows the record, the loader
  // decodes the fields the handler stored.
  lemma DispatchLayout(e: Event, p: Padding, tail: seq<U8>)
    requires p.Valid()
    ensures Dispatch(Layout(e, p) + tail) == Decoded(e)
  {
    var flag, fs := e.Flag(), Fields(e, p);
    var raw, ws := Layout(e, p) + tail, Widths(flag);
    LeadingFlag(e, p, tail);
    FromFieldsFields(e, p);
    SplitJoin(fs, tail, ws);
    DispatchSplit(raw, flag, fs);
  }

  // Dispatch in one step, for a sample whose first byte is a known flag.
  lemma DispatchSplit(raw: seq<U8>, flag: U8, fs: seq<seq<U8>>)
    requires |raw| > 0 && raw[0] == flag && 1 <= flag <= 4
    requires Total(Widths(flag)) <= |raw| && Split(raw, Widths(flag)) == fs
    ensures Dispatch(raw) == Decoded(FromFields(flag, fs))
  {
  }

  function PaddingOf(flag: U8, fs: seq<seq<U8>>): (p: Padding)
    requires 1 <= flag <= 4 && Fit(fs, Widths(flag))
    ensures p.Valid()
  {
    Padding(fs[1], fs[4], if flag == 3 then fs[7] else [0, 0, 0, 0, 0, 0, 0])
  }

  lemma FieldsFromFields(flag: U8, fs: seq<seq<U8>>)
    requires 1 <= flag <= 4 && Fit(fs, Widths(flag))
    requires fs[0] == [flag]
    ensures Fields(FromFields(flag, fs), PaddingOf(flag, fs)) == fs
  {
    hide Get4, Get8, LE4, LE8;
    var gs := Fields(FromFields(flag, fs), PaddingOf(flag, fs));
    FieldWidths(FromFields(flag, fs), PaddingOf(flag, fs));
    forall i | 0 <= i < |fs| ensures gs[i] == fs[i] {
      if |fs[i]| == 4 { Get4LE4(0, fs[i]); }
      if |fs[i]| == 8 { Get8LE8(0, fs[i]); }
    }
  }

  // Conversely, only a record's own layout decodes to it: the decoder forgets
  // nothing but padding and trailing bytes.
  lemma DispatchOnlyLayout(raw: seq<U8>) returns (p: Padding, tail: seq<U8>)
    requires Dispatch(raw).Decoded?
    ensures p.Valid() && raw == Layout(Dispatch(raw).event, p) + tail
  {
    hide Fields, FromFields, PaddingOf;
    var flag := raw[0];
    var ws := Widths(flag);
    var fs := Split(raw, ws);
    JoinSplit(raw, ws);
    assert fs[0] == [flag] by { assert ws[0] == 1 && fs[0] == raw[..1]; }
    p := PaddingOf(flag, fs);
    FieldsFromFields(flag, fs);
    tail := raw[Total(ws)..];
  }

  // ---- raw samples -----------------------------------------------------------

  // The little-endian numbers at an offset of a sample.
  function U32At(raw: seq<U8>, i: nat): (n: U32)
    requires i + 4 <= |raw|
    ensures n == raw[i] as nat + 0x100 * raw[i + 1] as nat + 0x1_0000 * raw[i + 2] as nat
                 + 0x100_0000 * raw[i + 3] as nat
  {
    FromFour(raw[i..i + 4]);
    Get4(raw[i..i + 4])
  }

  function U64At(raw: seq<U8>, i: nat): (n: U64)
    requires i + 8 <= |raw|
    ensures n == U32At(raw, i) as nat + 0x1_0000_0000 * U32At(raw, i + 4) as nat
  {
    FromEight(raw[i..i + 8]);
    assert raw[i..i + 8][..4] == raw[i..i + 4] && raw[i..i + 8][4..] == raw[i + 4..i + 8];
    Get8(raw[i..i + 8])
  }

  lemma SplitStep(raw: seq<U8>, start: nat, w: nat, ws: seq<nat>)
    requires start + w + Total(ws) <= |raw|
    ensures Total([w] + ws) == w + Total(ws)
    ensures Split(raw[start..], [w] + ws) == [raw[start..start + w]] + Split(raw[start + w..], ws)
  {
    assert ([w] + ws)[1..] == ws;
    assert raw[start..][..w] == raw[start..start + w] && raw[start..][w..] == raw[start + w..];
  }

  // The five fields every record begins with: the flag byte, padding, the pid at
  // offset 4, the process name at 8, padding; the rest starts at 160.
  lemma SplitHeader(raw: seq<U8>, ws: seq<nat>)
    requires 160 + Total(ws) <= |raw|
    ensures Total([1, 3, 4, 150, 2] + ws) == 160 + Total(ws)
    ensures Split(raw, [1, 3, 4, 150, 2] + ws)
         == [raw[0..1], raw[1..4], raw[4..8], raw[8..158], raw[158..160]] + Split(raw[160..], ws)
  {
    hide Total, Split;
    SplitStep(raw, 158, 2, ws);
    SplitStep(raw, 8, 150, [2] + ws);
    SplitStep(raw, 4, 4, [150] + ([2] + ws));
    SplitStep(raw, 1, 3, [4] + ([150] + ([2] + ws)));
    SplitStep(raw, 0, 1, [3] + ([4] + ([150] + ([2] + ws))));
    assert raw[0..] == raw;
    assert [1] + ([3] + ([4] + ([150] + ([2] + ws)))) == [1, 3, 4, 150, 2] + ws;
  }

  lemma SplitThreeNumbers(raw: seq<U8>, i: nat)
    requires i + 24 <= |raw|
    ensures Total([8, 8, 8]) == 24
    ensures Split(raw[i..], [8, 8, 8]) == [raw[i..i + 8], raw[i + 8..i + 16], raw[i + 16..i + 24]]
  {
    hide Total, Split;
    SplitNothing(raw[i + 24..]);
    SplitStep(raw, i + 16, 8, []);
    assert [8] + [] == [8];
    SplitStep(raw, i + 8, 8, [8]);
    assert [8] + [8] == [8, 8];
    SplitStep(raw, i, 8, [8, 8]);
    assert [8] + [8, 8] == [8, 8, 8];
  }

  lemma SplitSixDimensions(raw: seq<U8>, i: nat, ws: seq<nat>)
    requires i + 24 + Total(ws) <= |raw|
    ensures Total([4, 4, 4, 4, 4, 4] + ws) == 24 + Total(ws)
    ensures Split(raw[i..], [4, 4, 4, 4, 4, 4] + ws)
         == [raw[i..i + 4], raw[i + 4..i + 8], raw[i + 8..i + 12], raw[i + 12..i + 16], raw[i + 16..i + 20],
             raw[i + 20..i + 24]] + Split(raw[i + 24..], ws)
  {
    hide Total, Split;
    SplitStep(raw, i + 20, 4, ws);
    SplitStep(raw, i + 16, 4, [4] + ws);
    SplitStep(raw, i + 12, 4, [4] + ([4] + ws));
    SplitStep(raw, i + 8, 4, [4] + ([4] + ([4] + ws)));
    SplitStep(raw, i + 4, 4, [4] + ([4] + ([4] + ([4] + ws))));
    SplitStep(raw, i, 4, [4] + ([4] + ([4] + ([4] + ([4] + ws)))));
    assert [4] + ([4] + ([4] + ([4] + ([4] + ([4] + ws))))) == [4, 4, 4, 4, 4, 4] + ws;
  }

  lemma LaunchSplit(raw: seq<U8>, dims: seq<nat>, totals: seq<nat>)
    requires |raw| >= 208 && dims == [4, 4, 4, 4, 4, 4] && totals == [8, 8, 8]
    ensures Total([1, 3, 4, 150, 2] + (dims + totals)) == 208
    ensures Split(raw, [1, 3, 4, 150, 2] + (dims + totals))
         == [raw[0..1], raw[1..4], raw[4..8], raw[8..158], raw[158..160]]
            + ([raw[160..164], raw[164..168], raw[168..172], raw[172..176], raw[176..180], raw[180..184]]
               + [raw[184..192], raw[192..200], raw[200..208]])
  {
    hide Split, Total;
    SplitThreeNumbers(raw, 184);
    SplitSixDimensions(raw, 160, totals);
    SplitHeader(raw, dims + totals);
  }

  lemma LaunchWidths(dims: seq<nat>, totals: seq<nat>)
    requires dims == [4, 4, 4, 4, 4, 4] && totals == [8, 8, 8]
    ensures LAUNCH_WIDTHS == [1, 3, 4, 150, 2] + (dims + totals)
  {
  }

  // What the loader makes of a sample, in its bytes: the layouts of the four C
  // structs, 208, 168, 176 and 184 bytes long.
  lemma LaunchSample(raw: seq<U8>)
    requires |raw| >= 208 && raw[0] == 1
    ensures Dispatch(raw) == Decoded(KernelLaunch(
              U32At(raw, 4), raw[8..158],
              U32At(raw, 160), U32At(raw, 164), U32At(raw, 168), U32At(raw, 172), U32At(raw, 176), U32At(raw, 180),
              U64At(raw, 184), U64At(raw, 192), U64At(raw, 200)))
  {
    hide Split, Total, Get4, Get8;
    LaunchSplit(raw, [4, 4, 4, 4, 4, 4], [8, 8, 8]);
    LaunchWidths([4, 4, 4, 4, 4, 4], [8, 8, 8]);
    DispatchSplit(raw, 1, Split(raw, LAUNCH_WIDTHS));
  }

  lemma AllocSample(raw: seq<U8>)
    requires |raw| >= 168 && raw[0] == 2
    ensures Dispatch(raw) == Decoded(MemAlloc(U32At(raw, 4), raw[8..158], U64At(raw, 160)))
  {
    hide Split, Total, Get4, Get8;
    SplitNothing(raw[168..]);
    SplitStep(raw, 160, 8, []);
    assert [8] + [] == [8];
    SplitHeader(raw, [8]);
    OtherWidths([8], [8, 1, 7], [8, 8, 8]);
    DispatchSplit(raw, 2, Split(raw, MEMALLOC_WIDTHS));
  }

  lemma CopySplit(raw: seq<U8>, ws: seq<nat>)
    requires |raw| >= 176 && ws == [8, 1, 7]
    ensures Total(ws) == 16 && Split(raw[160..], ws) == [raw[160..168], raw[168..169], raw[169..176]]
  {
    hide Split, Total;
    SplitNothing(raw[176..]);
    SplitStep(raw, 169, 7, []);
    assert [7] + [] == [7];
    SplitStep(raw, 168, 1, [7]);
    assert [1] + [7] == [1, 7];
    SplitStep(raw, 160, 8, [1, 7]);
    assert [8] + [1, 7] == ws;
  }

  lemma CopySample(raw: seq<U8>)
    requires |raw| >= 176 && raw[0] == 3
    ensures Dispatch(raw) == Decoded(Memcpy(U32At(raw, 4), raw[8..158], U64At(raw, 160), raw[168]))
  {
    hide Split, Total, Get4, Get8;
    CopySplit(raw, [8, 1, 7]);
    SplitHeader(raw, [8, 1, 7]);
    OtherWidths([8], [8, 1, 7], [8, 8, 8]);
    DispatchSplit(raw, 3, Split(raw, MEMCPY_WIDTHS));
  }

  lemma SyncSample(raw: seq<U8>)
    requires |raw| >= 184 && raw[0] == 4
    ensures Dispatch(raw) == Decoded(StreamSync(U32At(raw, 4), raw[8..158], U64At(raw, 160), U64At(raw, 168),
                                                U64At(raw, 176)))
  {
    hide Split, Total, Get4, Get8;
    SplitThreeNumbers(raw, 160);
    SplitHeader(raw, [8, 8, 8]);
    OtherWidths([8], [8, 1, 7], [8, 8, 8]);
    DispatchSplit(raw, 4, Split(raw, STREAM_WIDTHS));
  }

  lemma OtherWidths(alloc: seq<nat>, copy: seq<nat>, sync: seq<nat>)
    requires alloc == [8] && copy == [8, 1, 7] && sync == [8, 8, 8]
    ensures MEMALLOC_WIDTHS == [1, 3, 4, 150, 2] + alloc
    ensures MEMCPY_WIDTHS == [1, 3, 4, 150, 2] + copy
    ensures STREAM_WIDTHS == [1, 3, 4, 150, 2] + sync
  {
  }

  // And when it makes nothing of one: exactly the empty, the unknown and the
  // short.
  lemma NotDecodedIff(raw: seq<U8>)
    ensures Dispatch(raw) == EmptyRecord <==> raw == []
    ensures Dispatch(raw) == UnknownFlag <==> raw != [] && (raw[0] == 0 || raw[0] > 4)
    ensures Dispatch(raw) == ParseError <==>
              && raw != [] && 1 <= raw[0] <= 4
              && |raw| < if raw[0] == 1 then 208 else if raw[0] == 2 then 168 else if raw[0] == 3 then 176 else 184
  {
    if raw != [] && 1 <= raw[0] <= 4 {
      WidthTotals();
    }
  }

  lemma WidthTotals()
    ensures Total(Widths(1)) == 208 && Total(Widths(2)) == 168 && Total(Widths(3)) == 176 && Total(Widths(4)) == 184
  {
    hide Total;
    HeadTotals();
    TotalConcat([4, 4, 4, 4, 4, 4], [8, 8, 8]);
    TotalConcat([1, 3, 4, 150, 2], [4, 4, 4, 4, 4, 4] + [8, 8, 8]);
    TotalConcat([1, 3, 4, 150, 2], [8]);
    TotalConcat([1, 3, 4, 150, 2], [8, 1, 7]);
    TotalConcat([1, 3, 4, 150, 2], [8, 8, 8]);
    assert LAUNCH_WIDTHS == [1, 3, 4, 150, 2] + ([4, 4, 4, 4, 4, 4] + [8, 8, 8]);
    assert MEMALLOC_WIDTHS == [1, 3, 4, 150, 2] + [8] && MEMCPY_WIDTHS == [1, 3, 4, 150, 2] + [8, 1, 7];
    assert STREAM_WIDTHS == [1, 3, 4, 150, 2] + [8, 8, 8];
  }

  lemma HeadTotals()
    ensures Total([1, 3, 4, 150, 2]) == 160 && Total([4, 4, 4, 4, 4, 4]) == 24
    ensures Total([8]) == 8 && Total([8, 1, 7]) == 16 && Total([8, 8, 8]) == 24
  {
  }

  lemma {:induction false} TotalConcat(a: seq<nat>, b: seq<nat>)
    ensures Total(a + b) == Total(a) + Total(b)
  {
    if a == [] {
      assert a + b == b;
    } else {
      TotalConcat(a[1..], b);
      assert (a + b)[1..] == a[1..] + b;
    }
  }

  // unix.ByteSliceToString: the bytes before the first NUL.
  function CString(s: seq<U8>): (r: seq<U8>)
    ensures r <= s
    ensures 0 !in r
    ensures |r| < |s| ==> s[|r|] == 0
  {
    if s == [] || s[0] == 0 then [] else [s[0]] + CString(s[1..])
  }
}
