/**
 Files written in any of the legacy formats load back, and where the tensors of a loaded file lie.
 */
module GgmlProofs {
  import opened Common
  import opened GgmlFile

  // ---- where tensors lie ----

  /** The data regions follow each other, the first one after lo; a header of at least 12 bytes comes before each. */
  predicate Ordered(tensors: seq<Tensor>, lo: nat, padded: bool)
    decreases |tensors|
  {
    tensors != [] ==>
      && lo + 12 <= tensors[0].start && (padded ==> tensors[0].start % 32 == 0)
      && Ordered(tensors[1..], tensors[0].start + tensors[0].size, padded)
  }

  function EndOf(tensors: seq<Tensor>, offset: nat): nat {
    if tensors == [] then offset else Last(tensors).start + Last(tensors).size
  }

  lemma {:induction false} TensorsOrdered(data: Bytes, offset: nat, padded: bool)
    ensures
      match ReadTensors(data, offset, padded)
      case Ok((tensors, end)) => Ordered(tensors, offset, padded) && end == EndOf(tensors, offset)
      case Err(_) => true
    decreases |data| - offset
  {
    hide ReadTensor;
    if offset < |data| && ReadTensor(data, offset, padded).Ok? {
      var (t, next) := ReadTensor(data, offset, padded).value;
      TensorsOrdered(data, next, padded);
      var rest := ReadTensors(data, next, padded);
      if rest.Ok? {
        assert ([t] + rest.value.0)[1..] == rest.value.0;
      }
    }
  }

  lemma {:induction false} OrderedApart(tensors: seq<Tensor>, lo: nat, padded: bool, i: nat, j: nat)
    requires Ordered(tensors, lo, padded) && i < j < |tensors|
    ensures tensors[i].start + tensors[i].size < tensors[j].start
    decreases |tensors|
  {
    var rest := tensors[1..];
    assert tensors[j] == rest[j - 1];
    if i > 0 {
      assert tensors[i] == rest[i - 1];
      OrderedApart(rest, tensors[0].start + tensors[0].size, padded, i - 1, j - 1);
    } else if j > 1 {
      OrderedApart(rest, tensors[0].start + tensors[0].size, padded, 0, j - 1);
    }
  }

  lemma {:induction false} OrderedAt(tensors: seq<Tensor>, lo: nat, padded: bool, i: nat)
    requires Ordered(tensors, lo, padded) && i < |tensors|
    ensures lo < tensors[i].start && (padded ==> tensors[i].start % 32 == 0)
    decreases |tensors|
  {
    if i > 0 {
      assert tensors[i] == tensors[1..][i - 1];
      OrderedAt(tensors[1..], tensors[0].start + tensors[0].size, padded, i - 1);
    }
  }

  lemma ReadModelParts(data: Bytes, offset: nat) returns (at: nat)
    requires ReadModel(data, offset).Ok?
    ensures
      var (m, end) := ReadModel(data, offset).value;
      && ReadTensors(data, at, m.format == GGJT) == Ok((m.tensors, end))
      && m.index == IndexOf(m.tensors) && FeedForward(m.tensors, m.index) == Ok(m.hyper.nFf)
  {
    hide ReadHeader, ReadHyper, ReadItems, ReadTensors, IndexOf, FeedForward, Convertible;
    var (h, n) := ReadHeader(data, offset).value;
    var hp := ReadHyper(data, offset + n).value;
    at := ReadItems(data, offset + n + 28, hp.nVocab, h.format != GGML).value.1;
  }

  /**
   In every file that loads, the tensors' regions are in order and do not overlap, in GGJT each starts at a
   multiple of 32, and the last one ends where loading stopped, which is not before the end of the file.
   */
  lemma RegionsApart(data: Bytes, offset: nat, i: nat, j: nat)
    requires ReadModel(data, offset).Ok?
    ensures
      var (m, end) := ReadModel(data, offset).value;
      && m.tensors != [] && end == Last(m.tensors).start + Last(m.tensors).size && end >= |data|
      && (i < j < |m.tensors| ==> m.tensors[i].start + m.tensors[i].size < m.tensors[j].start)
      && (i < |m.tensors| && m.format == GGJT ==> m.tensors[i].start % 32 == 0)
  {
    hide ReadModel, ReadTensors;
    var at := ReadModelParts(data, offset);
    var (m, end) := ReadModel(data, offset).value;
    var padded := m.format == GGJT;
    TensorsOrdered(data, at, padded);
    if i < |m.tensors| {
      OrderedAt(m.tensors, at, padded, i);
    }
    if i < j < |m.tensors| {
      OrderedApart(m.tensors, at, padded, i, j);
    }
  }

  lemma {:induction false} IndexIs(tensors: seq<Tensor>, name: Bytes)
    ensures
      var r := IndexOf(tensors);
      && (name in r ==> tensors[r[name]].name == name)
      && (forall k :: 0 <= k < |tensors| && tensors[k].name == name ==> name in r && k <= r[name])
    decreases |tensors|
  {
    if tensors != [] {
      IndexIs(Init(tensors), name);
      assert forall k :: 0 <= k < |tensors| - 1 ==> tensors[k] == Init(tensors)[k];
    }
  }

  /** The index gives the last tensor of each name, and the feed-forward width is read from it. */
  lemma IndexIsLast(data: Bytes, offset: nat, k: nat)
    requires ReadModel(data, offset).Ok?
    ensures
      var m := ReadModel(data, offset).value.0;
      && (k < |m.tensors| ==>
            && m.tensors[k].name in m.index && k <= m.index[m.tensors[k].name] < |m.tensors|
            && m.tensors[m.index[m.tensors[k].name]].name == m.tensors[k].name)
      && FF_NAME in m.index && m.index[FF_NAME] < |m.tensors|
      && |m.tensors[m.index[FF_NAME]].dims| >= 2 && m.hyper.nFf == m.tensors[m.index[FF_NAME]].dims[1]
  {
    hide ReadModel, IndexOf;
    var at := ReadModelParts(data, offset);
    var m := ReadModel(data, offset).value.0;
    if k < |m.tensors| {
      IndexIs(m.tensors, m.tensors[k].name);
    }
  }

  // ---- writing a file ----

  datatype FileTensor = FileTensor(name: Bytes, dims: seq<nat>, dtype: nat, payload: Bytes)

  datatype File = File(header: Header, hyper: Hyper, items: seq<Item>, tensors: seq<FileTensor>)

  function PutWord(w: nat): (r: Bytes)
    requires w < WORD
    ensures |r| == 4
  {
    [w % 0x100, w / 0x100 % 0x100, w / 0x1_0000 % 0x100, w / 0x100_0000]
  }

  predicate AllWords(ws: seq<nat>) {
    forall k :: 0 <= k < |ws| ==> ws[k] < WORD
  }

  function PutWords(ws: seq<nat>): (r: Bytes)
    requires AllWords(ws)
    ensures |r| == 4 * |ws|
  {
    if ws == [] then [] else PutWord(ws[0]) + PutWords(ws[1..])
  }

  predicate ValidHeader(h: Header) {
    match h.format
    case GGML => h.version == 1
    case GGMF => h.version == 1
    case GGJT => 1 <= h.version <= 3
  }

  function PutHeader(h: Header): Bytes
    requires ValidHeader(h)
  {
    match h.format
    case GGML => GGML_MAGIC
    case GGMF => GGMF_MAGIC + PutWord(h.version)
    case GGJT => GGJT_MAGIC + PutWord(h.version)
  }

  function HyperWords(hp: Hyper): seq<nat> {
    [hp.nVocab, hp.nEmbd, hp.nMult, hp.nHead, hp.nLayer, hp.nRot, hp.ftype]
  }

  predicate ValidItem(item: Item, scores: bool) {
    |item.text| < 4096 && (if scores then item.score.Some? && |item.score.value| == 4 else item.score == None)
  }

  function PutItem(item: Item, scores: bool): Bytes
    requires ValidItem(item, scores)
  {
    PutWord(|item.text|) + (item.text + if scores then item.score.value else [])
  }

  predicate ValidItems(items: seq<Item>, scores: bool) {
    forall k :: 0 <= k < |items| ==> ValidItem(items[k], scores)
  }

  function PutItems(items: seq<Item>, scores: bool): Bytes
    requires ValidItems(items, scores)
  {
    if items == [] then [] else PutItem(items[0], scores) + PutItems(items[1..], scores)
  }

  /** A tensor that the format can hold: its payload has the size that its shape and type ask for. */
  predicate ValidTensor(t: FileTensor) {
    && |t.dims| <= 4 && AllWords(t.dims) && |t.name| < 4096
    && t.dtype < WORD && QuantSize(t.dtype).Some? && DataSize(t.dims, t.dtype) == Some(|t.payload|)
  }

  function TensorWords(t: FileTensor): seq<nat> {
    [|t.dims|, |t.name|, t.dtype]
  }

  function TensorHead(t: FileTensor): (r: Bytes)
    requires ValidTensor(t)
    ensures |r| == 12 + 4 * |t.dims| + |t.name|
  {
    PutWords(TensorWords(t)) + (PutWords(t.dims) + t.name)
  }

  /** Where a tensor's data starts when its header is written at the offset. */
  function DataStart(t: FileTensor, offset: nat, padded: bool): (r: nat)
    requires ValidTensor(t)
    ensures r >= offset + |TensorHead(t)|
  {
    var after := offset + |TensorHead(t)|;
    after + Padding(after, padded)
  }

  function PutTensor(t: FileTensor, offset: nat, padded: bool): (r: Bytes)
    requires ValidTensor(t)
    ensures offset + |r| == DataStart(t, offset, padded) + |t.payload|
  {
    TensorHead(t) + (Repeat(0, DataStart(t, offset, padded) - offset - |TensorHead(t)|) + t.payload)
  }

  predicate ValidTensors(ts: seq<FileTensor>) {
    forall k :: 0 <= k < |ts| ==> ValidTensor(ts[k])
  }

  function PutTensors(ts: seq<FileTensor>, offset: nat, padded: bool): Bytes
    requires ValidTensors(ts)
  {
    if ts == [] then []
    else
      var first := PutTensor(ts[0], offset, padded);
      first + PutTensors(ts[1..], offset + |first|, padded)
  }

  /** The tensors with the places that writing gives them. */
  function Placed(ts: seq<FileTensor>, offset: nat, padded: bool): (r: seq<Tensor>)
    requires ValidTensors(ts)
    ensures |r| == |ts| && forall k :: 0 <= k < |ts| ==> r[k].name == ts[k].name && r[k].dims == ts[k].dims
  {
    if ts == [] then []
    else
      var t := ts[0];
      var start := DataStart(t, offset, padded);
      [Tensor(t.name, t.dims, t.dtype, start, |t.payload|)] + Placed(ts[1..], start + |t.payload|, padded)
  }

  /** What the loader demands of a file. */
  predicate ValidFile(f: File) {
    && ValidHeader(f.header) && AllWords(HyperWords(f.hyper)) && f.hyper.nFf == 0
    && KnownFtype(f.hyper.ftype) && Convertible(f.header, f.hyper.ftype)
    && f.hyper.nVocab == |f.items| && ValidItems(f.items, f.header.format != GGML) && ValidTensors(f.tensors)
  }

  function TensorsAt(f: File): nat
    requires ValidFile(f)
  {
    |PutHeader(f.header)| + 28 + |PutItems(f.items, f.header.format != GGML)|
  }

  function PutFile(f: File): Bytes
    requires ValidFile(f)
  {
    PutHeader(f.header) + (PutWords(HyperWords(f.hyper)) + (PutItems(f.items, f.header.format != GGML)
      + PutTensors(f.tensors, TensorsAt(f), f.header.format == GGJT)))
  }

  // ---- reading it back ----

  /** The bytes stand in the data at the offset. */
  predicate Holds(data: Bytes, offset: nat, bytes: Bytes) {
    offset + |bytes| <= |data| && data[offset..offset + |bytes|] == bytes
  }

  lemma HoldsParts(data: Bytes, offset: nat, x: Bytes, y: Bytes)
    requires Holds(data, offset, x + y)
    ensures Holds(data, offset, x) && Holds(data, offset + |x|, y)
  {
    assert data[offset..offset + |x|] == data[offset..offset + |x + y|][..|x|];
    assert data[offset + |x|..offset + |x| + |y|] == data[offset..offset + |x + y|][|x|..];
  }

  lemma HoldsCut(data: Bytes, full: Bytes, offset: nat, bytes: Bytes)
    requires data <= full && Holds(full, offset, bytes) && offset + |bytes| <= |data|
    ensures Holds(data, offset, bytes)
  {
    assert data[offset..offset + |bytes|] == full[offset..offset + |bytes|];
  }

  lemma HoldsAt(data: Bytes, offset: nat, bytes: Bytes, k: nat)
    requires Holds(data, offset, bytes) && k < |bytes|
    ensures data[offset + k] == bytes[k]
  {
    assert data[offset..offset + |bytes|][k] == data[offset + k];
  }

  lemma WordParts(w: nat)
    requires w < WORD
    ensures
      w % 0x100 + 0x100 * (w / 0x100 % 0x100) + 0x1_0000 * (w / 0x1_0000 % 0x100) + 0x100_0000 * (w / 0x100_0000) == w
  {
  }

  lemma ReadPutWord(data: Bytes, offset: nat, w: nat)
    requires w < WORD && Holds(data, offset, PutWord(w))
    ensures ReadWord(data, offset) == Some(w)
  {
    var b := PutWord(w);
    HoldsAt(data, offset, b, 0);
    HoldsAt(data, offset, b, 1);
    HoldsAt(data, offset, b, 2);
    HoldsAt(data, offset, b, 3);
    WordParts(w);
  }

  lemma {:induction false} ReadPutWords(data: Bytes, offset: nat, ws: seq<nat>)
    requires AllWords(ws) && Holds(data, offset, PutWords(ws))
    ensures ReadWords(data, offset, |ws|) == Ok(ws)
    decreases |ws|
  {
    hide PutWord, ReadWord, Holds;
    if ws != [] {
      HoldsParts(data, offset, PutWord(ws[0]), PutWords(ws[1..]));
      ReadPutWord(data, offset, ws[0]);
      ReadPutWords(data, offset + 4, ws[1..]);
      assert ws == [ws[0]] + ws[1..];
    }
  }

  lemma HoldsSlice(data: Bytes, offset: nat, bytes: Bytes)
    requires Holds(data, offset, bytes)
    ensures Slice(data, offset, |bytes|) == bytes
  {
  }

  lemma Magics()
    ensures GGML_MAGIC != GGUF_MAGIC && GGMF_MAGIC != GGUF_MAGIC && GGJT_MAGIC != GGUF_MAGIC
    ensures GGMF_MAGIC != GGML_MAGIC && GGJT_MAGIC != GGML_MAGIC && GGJT_MAGIC != GGMF_MAGIC
  {
    assert GGML_MAGIC[0] != GGUF_MAGIC[0] && GGMF_MAGIC[0] != GGUF_MAGIC[0] && GGJT_MAGIC[0] != GGUF_MAGIC[0];
    assert GGMF_MAGIC[0] != GGML_MAGIC[0] && GGJT_MAGIC[0] != GGML_MAGIC[0] && GGJT_MAGIC[0] != GGMF_MAGIC[0];
  }

  lemma ReadPutHeader(data: Bytes, offset: nat, h: Header)
    requires ValidHeader(h) && Holds(data, offset, PutHeader(h))
    ensures ReadHeader(data, offset) == Ok((h, |PutHeader(h)|))
  {
    hide PutWord, ReadWord, Holds, Slice;
    var magic := match h.format case GGML => GGML_MAGIC case GGMF => GGMF_MAGIC case GGJT => GGJT_MAGIC;
    Magics();
    if h.format != GGML {
      HoldsParts(data, offset, magic, PutWord(h.version));
      ReadPutWord(data, offset + 4, h.version);
    }
    HoldsSlice(data, offset, magic);
  }

  lemma ReadPutHyper(data: Bytes, offset: nat, hp: Hyper)
    requires AllWords(HyperWords(hp)) && KnownFtype(hp.ftype) && hp.nFf == 0
    requires Holds(data, offset, PutWords(HyperWords(hp)))
    ensures ReadHyper(data, offset) == Ok(hp)
  {
    hide PutWords, ReadWords, Holds;
    ReadPutWords(data, offset, HyperWords(hp));
  }

  lemma ReadPutItem(data: Bytes, offset: nat, item: Item, scores: bool)
    requires ValidItem(item, scores) && Holds(data, offset, PutItem(item, scores))
    ensures ReadItem(data, offset, scores) == Ok((item, offset + |PutItem(item, scores)|))
  {
    var score := if scores then item.score.value else [];
    var n := |item.text|;
    HoldsParts(data, offset, PutWord(n), item.text + score);
    HoldsParts(data, offset + 4, item.text, score);
    ReadPutWord(data, offset, n);
    HoldsSlice(data, offset + 4, item.text);
    hide PutWord, ReadWord, Slice;
  }

  lemma {:induction false} ReadPutItems(data: Bytes, offset: nat, items: seq<Item>, scores: bool)
    requires ValidItems(items, scores) && Holds(data, offset, PutItems(items, scores))
    ensures ReadItems(data, offset, |items|, scores) == Ok((items, offset + |PutItems(items, scores)|))
    decreases |items|
  {
    hide PutItem, ReadItem, Holds, ValidItem;
    if items != [] {
      var first := PutItem(items[0], scores);
      HoldsParts(data, offset, first, PutItems(items[1..], scores));
      ReadPutItem(data, offset, items[0], scores);
      ReadPutItems(data, offset + |first|, items[1..], scores);
      assert items == [items[0]] + items[1..];
    }
  }

  lemma TensorParts(data: Bytes, offset: nat, t: FileTensor)
    requires ValidTensor(t) && Holds(data, offset, TensorHead(t))
    ensures ReadWords(data, offset, 3) == Ok(TensorWords(t))
    ensures ReadWords(data, offset + 12, |t.dims|) == Ok(t.dims)
    ensures Slice(data, offset + 12 + 4 * |t.dims|, |t.name|) == t.name
  {
    hide Holds, PutWords, ReadWords, Slice, QuantSize, DataSize;
    HoldsParts(data, offset, PutWords(TensorWords(t)), PutWords(t.dims) + t.name);
    HoldsParts(data, offset + 12, PutWords(t.dims), t.name);
    ReadPutWords(data, offset, TensorWords(t));
    ReadPutWords(data, offset + 12, t.dims);
    HoldsSlice(data, offset + 12 + 4 * |t.dims|, t.name);
  }

  /** Only the header of a tensor is looked at. */
  lemma ReadPutTensor(data: Bytes, offset: nat, t: FileTensor, padded: bool)
    requires ValidTensor(t) && Holds(data, offset, TensorHead(t))
    ensures
      var start := DataStart(t, offset, padded);
      ReadTensor(data, offset, padded)
      == Ok((Tensor(t.name, t.dims, t.dtype, start, |t.payload|), start + |t.payload|))
  {
    hide Holds, PutWords, ReadWords, Slice, QuantSize, DataSize, Padding, TensorHead;
    TensorParts(data, offset, t);
  }

  /** Where the header of the last tensor ends. */
  function LastHeader(ts: seq<FileTensor>, offset: nat, padded: bool): (r: nat)
    requires ts != [] && ValidTensors(ts)
    ensures r > offset
  {
    if |ts| == 1 then offset + |TensorHead(ts[0])|
    else LastHeader(ts[1..], offset + |PutTensor(ts[0], offset, padded)|, padded)
  }

  /** The data is the beginning of a file, and holds all the headers of the tensors that are left. */
  predicate Reaches(data: Bytes, full: Bytes, ts: seq<FileTensor>, offset: nat, padded: bool)
    requires ValidTensors(ts)
  {
    data <= full && (ts != [] ==> LastHeader(ts, offset, padded) <= |data|)
  }

  lemma {:induction false} ReadPutTensors(data: Bytes, full: Bytes, offset: nat, ts: seq<FileTensor>, padded: bool)
    requires ValidTensors(ts) && Reaches(data, full, ts, offset, padded)
    requires Holds(full, offset, PutTensors(ts, offset, padded)) && offset + |PutTensors(ts, offset, padded)| == |full|
    ensures ReadTensors(data, offset, padded) == Ok((Placed(ts, offset, padded), |full|))
    decreases |ts|
  {
    hide ValidTensor, ReadTensor, TensorHead, DataStart, PutTensor, PutTensors, Holds, ReadTensors, Reaches;
    if ts == [] {
      NoTensors(offset, padded);
      assert data <= full by {
        ReachesPrefix(data, full, ts, offset, padded);
      }
      ReadNone(data, full, offset, padded);
    } else {
      var next := offset + |PutTensor(ts[0], offset, padded)|;
      TensorsTail(full, offset, ts, padded);
      ReachesTail(data, full, offset, ts, padded);
      ReadPutTensor(data, offset, ts[0], padded);
      ReadPutTensors(data, full, next, ts[1..], padded);
      ReadStep(data, offset, ts[0], Placed(ts[1..], next, padded), |full|, padded);
    }
  }

  lemma ReadNone(data: Bytes, full: Bytes, offset: nat, padded: bool)
    requires data <= full && offset == |full|
    ensures ReadTensors(data, offset, padded) == Ok(([], |full|))
  {
  }

  lemma ReadStep(data: Bytes, offset: nat, t: FileTensor, rest: seq<Tensor>, end: nat, padded: bool)
    requires ValidTensor(t) && offset < |data|
    requires
      var start := DataStart(t, offset, padded);
      && ReadTensor(data, offset, padded)
         == Ok((Tensor(t.name, t.dims, t.dtype, start, |t.payload|), start + |t.payload|))
      && ReadTensors(data, start + |t.payload|, padded) == Ok((rest, end))
    ensures
      ReadTensors(data, offset, padded)
      == Ok(([Tensor(t.name, t.dims, t.dtype, DataStart(t, offset, padded), |t.payload|)] + rest, end))
  {
    hide ValidTensor, ReadTensor, DataStart;
  }

  lemma ReachesPrefix(data: Bytes, full: Bytes, ts: seq<FileTensor>, offset: nat, padded: bool)
    requires ValidTensors(ts) && Reaches(data, full, ts, offset, padded)
    ensures data <= full
  {
  }

  /** What holds of the tensors from one on holds of the ones after it. */
  lemma TensorsTail(full: Bytes, offset: nat, ts: seq<FileTensor>, padded: bool)
    requires ts != [] && ValidTensors(ts)
    requires Holds(full, offset, PutTensors(ts, offset, padded)) && offset + |PutTensors(ts, offset, padded)| == |full|
    ensures ValidTensors(ts[1..]) && ValidTensor(ts[0]) && Holds(full, offset, PutTensor(ts[0], offset, padded))
    ensures
      var next := offset + |PutTensor(ts[0], offset, padded)|;
      && next == DataStart(ts[0], offset, padded) + |ts[0].payload|
      && Holds(full, next, PutTensors(ts[1..], next, padded)) && next + |PutTensors(ts[1..], next, padded)| == |full|
  {
    hide ValidTensor, TensorHead, DataStart, PutTensor, Holds;
    var first := PutTensor(ts[0], offset, padded);
    HoldsParts(full, offset, first, PutTensors(ts[1..], offset + |first|, padded));
  }

  lemma LastAfterFirst(ts: seq<FileTensor>, offset: nat, padded: bool)
    requires ts != [] && ValidTensors(ts)
    ensures offset + |TensorHead(ts[0])| <= LastHeader(ts, offset, padded)
    ensures ts[1..] != [] ==>
      LastHeader(ts, offset, padded) == LastHeader(ts[1..], offset + |PutTensor(ts[0], offset, padded)|, padded)
  {
    hide ValidTensor, TensorHead, PutTensor;
  }

  lemma ReachesTail(data: Bytes, full: Bytes, offset: nat, ts: seq<FileTensor>, padded: bool)
    requires ts != [] && ValidTensors(ts) && Reaches(data, full, ts, offset, padded)
    requires Holds(full, offset, PutTensor(ts[0], offset, padded))
    ensures Reaches(data, full, ts[1..], offset + |PutTensor(ts[0], offset, padded)|, padded)
    ensures offset < |data| && Holds(data, offset, TensorHead(ts[0]))
  {
    hide ValidTensor, TensorHead, DataStart, PutTensor, Holds, LastHeader;
    LastAfterFirst(ts, offset, padded);
    TensorFits(data, full, offset, ts[0], padded);
  }

  lemma TensorFits(data: Bytes, full: Bytes, offset: nat, t: FileTensor, padded: bool)
    requires ValidTensor(t) && data <= full && Holds(full, offset, PutTensor(t, offset, padded))
    requires offset + |TensorHead(t)| <= |data|
    ensures offset < |data| && Holds(data, offset, TensorHead(t))
  {
    var head := TensorHead(t);
    HoldsParts(full, offset, head,
               Repeat(0, DataStart(t, offset, padded) - offset - |head|) + t.payload);
    HoldsCut(data, full, offset, head);
  }

  /** The model that a file describes; none if the feed-forward tensor is missing or flat. */
  function ModelOf(f: File): Result<Model, Error>
    requires ValidFile(f)
  {
    Assemble(f.header, f.hyper, f.items, Placed(f.tensors, TensorsAt(f), f.header.format == GGJT))
  }

  lemma FileParts(f: File)
    requires ValidFile(f)
    ensures Holds(PutFile(f), 0, PutHeader(f.header))
    ensures Holds(PutFile(f), |PutHeader(f.header)|, PutWords(HyperWords(f.hyper)))
    ensures Holds(PutFile(f), |PutHeader(f.header)| + 28, PutItems(f.items, f.header.format != GGML))
    ensures Holds(PutFile(f), TensorsAt(f), PutTensors(f.tensors, TensorsAt(f), f.header.format == GGJT))
    ensures |PutFile(f)| == TensorsAt(f) + |PutTensors(f.tensors, TensorsAt(f), f.header.format == GGJT)|
  {
    hide PutHeader, PutWords, PutItems, PutTensors;
    var a, b, c := PutHeader(f.header), PutWords(HyperWords(f.hyper)), PutItems(f.items, f.header.format != GGML);
    var d := PutTensors(f.tensors, TensorsAt(f), f.header.format == GGJT);
    var full := PutFile(f);
    assert Holds(full, 0, full);
    HoldsParts(full, 0, a, b + (c + d));
    HoldsParts(full, |a|, b, c + d);
    HoldsParts(full, |a| + |b|, c, d);
  }

  /** Where the header of a file's last tensor ends; without tensors, the end of the file. */
  function HeadersEnd(f: File): nat
    requires ValidFile(f)
  {
    if f.tensors == [] then |PutFile(f)| else LastHeader(f.tensors, TensorsAt(f), f.header.format == GGJT)
  }

  /** The data is the beginning of the file, at least to the end of the last header. */
  predicate HasHeaders(data: Bytes, f: File)
    requires ValidFile(f)
  {
    data <= PutFile(f) && HeadersEnd(f) <= |data|
  }

  /** Everything before the tensors is in the data. */
  lemma BeforeTensors(f: File, data: Bytes)
    requires ValidFile(f) && HasHeaders(data, f)
    ensures TensorsAt(f) <= |data|
  {
    FileParts(f);
    hide PutFile, PutTensors, TensorsAt, Holds, LastHeader;
  }

  lemma NoTensors(offset: nat, padded: bool)
    ensures PutTensors([], offset, padded) == []
  {
  }

  /**
   Any file written in any of the three formats loads back as its model, with the tensors placed where they
   were written, and loading stops at the end of the written file. What follows the last tensor's header may
   be cut off: that is not noticed.
   */
  lemma RoundTrip(f: File, data: Bytes)
    requires ValidFile(f) && HasHeaders(data, f)
    ensures
      match ModelOf(f)
      case Ok(m) => ReadModel(data, 0) == Ok((m, |PutFile(f)|))
      case Err(e) => ReadModel(data, 0) == Err(e)
  {
    hide ValidFile, ReadHeader, ReadBody, Holds, PutFile, PutHeader, HasHeaders, TensorsAt, ModelOf;
    HeaderBack(f, data);
    BodyBack(f, data);
  }

  /** What comes before the tensors is in the data too. */
  lemma DataParts(f: File, data: Bytes)
    requires ValidFile(f) && HasHeaders(data, f)
    ensures Holds(data, 0, PutHeader(f.header))
    ensures Holds(data, |PutHeader(f.header)|, PutWords(HyperWords(f.hyper)))
    ensures Holds(data, |PutHeader(f.header)| + 28, PutItems(f.items, f.header.format != GGML))
  {
    FileParts(f);
    BeforeTensors(f, data);
    var full := PutFile(f);
    assert data <= full;
    var a, b := PutHeader(f.header), PutWords(HyperWords(f.hyper));
    var c := PutItems(f.items, f.header.format != GGML);
    assert |a| + 28 + |c| <= |data| && |b| == 28;
    hide *;
    HoldsCut(data, full, 0, a);
    HoldsCut(data, full, |a|, b);
    HoldsCut(data, full, |a| + 28, c);
  }

  lemma HeaderBack(f: File, data: Bytes)
    requires ValidFile(f) && HasHeaders(data, f)
    ensures ReadHeader(data, 0) == Ok((f.header, |PutHeader(f.header)|))
  {
    DataParts(f, data);
    ReadPutHeader(data, 0, f.header);
    hide *;
  }

  lemma HyperBack(f: File, data: Bytes)
    requires ValidFile(f) && HasHeaders(data, f)
    ensures ReadHyper(data, |PutHeader(f.header)|) == Ok(f.hyper)
  {
    DataParts(f, data);
    ReadPutHyper(data, |PutHeader(f.header)|, f.hyper);
    hide *;
  }

  lemma ItemsBack(f: File, data: Bytes)
    requires ValidFile(f) && HasHeaders(data, f)
    ensures
      ReadItems(data, |PutHeader(f.header)| + 28, f.hyper.nVocab, f.header.format != GGML)
        == Ok((f.items, TensorsAt(f)))
  {
    hide PutItems, PutHeader, PutFile, Holds, PutWords, PutTensors, ReadItems, HasHeaders, ValidTensors, ValidItem;
    DataParts(f, data);
    assert f.hyper.nVocab == |f.items| && ValidHeader(f.header) && ValidItems(f.items, f.header.format != GGML);
    assert TensorsAt(f) == |PutHeader(f.header)| + 28 + |PutItems(f.items, f.header.format != GGML)|;
    hide *;
    ReadPutItems(data, |PutHeader(f.header)| + 28, f.items, f.header.format != GGML);
  }

  lemma TensorsBack(f: File, data: Bytes)
    requires ValidFile(f) && HasHeaders(data, f)
    ensures
      ReadTensors(data, TensorsAt(f), f.header.format == GGJT)
      == Ok((Placed(f.tensors, TensorsAt(f), f.header.format == GGJT), |PutFile(f)|))
  {
    FileParts(f);
    assert Reaches(data, PutFile(f), f.tensors, TensorsAt(f), f.header.format == GGJT);
    hide Holds, PutFile, TensorsAt, ReadTensors, PutTensors, Placed, HasHeaders, Convertible, Reaches, LastHeader;
    ReadPutTensors(data, PutFile(f), TensorsAt(f), f.tensors, f.header.format == GGJT);
  }

  lemma BodyIs(data: Bytes, h: Header, at: nat, hp: Hyper, items: seq<Item>, next: nat, tensors: seq<Tensor>, end: nat)
    requires ReadHyper(data, at) == Ok(hp) && Convertible(h, hp.ftype)
    requires ReadItems(data, at + 28, hp.nVocab, h.format != GGML) == Ok((items, next))
    requires ReadTensors(data, next, h.format == GGJT) == Ok((tensors, end))
    ensures
      match Assemble(h, hp, items, tensors)
      case Ok(m) => ReadBody(data, h, at) == Ok((m, end))
      case Err(e) => ReadBody(data, h, at) == Err(e)
  {
    hide ReadHyper, ReadItems, ReadTensors, Convertible, Assemble;
  }

  lemma BodyBack(f: File, data: Bytes)
    requires ValidFile(f) && HasHeaders(data, f)
    ensures
      match ModelOf(f)
      case Ok(m) => ReadBody(data, f.header, |PutHeader(f.header)|) == Ok((m, |PutFile(f)|))
      case Err(e) => ReadBody(data, f.header, |PutHeader(f.header)|) == Err(e)
  {
    HyperBack(f, data);
    ItemsBack(f, data);
    TensorsBack(f, data);
    var tensors := Placed(f.tensors, TensorsAt(f), f.header.format == GGJT);
    assert Convertible(f.header, f.hyper.ftype);
    assert ModelOf(f) == Assemble(f.header, f.hyper, f.items, tensors);
    hide *;
    BodyIs(data, f.header, |PutHeader(f.header)|, f.hyper, f.items, TensorsAt(f), tensors, |PutFile(f)|);
  }

  /** With names that differ, the index is the tensors' own numbering. */
  lemma UniqueIndex(f: File, k: nat)
    requires ValidFile(f) && ModelOf(f).Ok? && k < |f.tensors|
    requires forall i, j :: 0 <= i < j < |f.tensors| ==> f.tensors[i].name != f.tensors[j].name
    ensures
      var m := ModelOf(f).value;
      f.tensors[k].name in m.index && m.index[f.tensors[k].name] == k
  {
    hide Placed, TensorsAt;
    var m := ModelOf(f).value;
    assert m.tensors[k].name == f.tensors[k].name;
    IndexIs(m.tensors, f.tensors[k].name);
    hide IndexOf;
    var i := m.index[f.tensors[k].name];
    assert m.tensors[i].name == f.tensors[i].name;
  }

  // ---- the data is where the model says ----

  lemma {:induction false} PayloadHeld(full: Bytes, ts: seq<FileTensor>, offset: nat, padded: bool, k: nat)
    requires ValidTensors(ts) && k < |ts| && Holds(full, offset, PutTensors(ts, offset, padded))
    ensures Placed(ts, offset, padded)[k].size == |ts[k].payload|
    ensures Holds(full, Placed(ts, offset, padded)[k].start, ts[k].payload)
    decreases |ts|
  {
    hide ValidTensor, TensorHead, DataStart, PutTensor, Holds;
    var first := PutTensor(ts[0], offset, padded);
    HoldsParts(full, offset, first, PutTensors(ts[1..], offset + |first|, padded));
    if k == 0 {
      PayloadLast(full, offset, ts[0], padded);
    } else {
      PayloadHeld(full, ts[1..], offset + |first|, padded, k - 1);
    }
  }

  lemma PayloadLast(full: Bytes, offset: nat, t: FileTensor, padded: bool)
    requires ValidTensor(t) && Holds(full, offset, PutTensor(t, offset, padded))
    ensures Holds(full, DataStart(t, offset, padded), t.payload)
  {
    hide ValidTensor, Holds, TensorHead, DataStart;
    var zeros := Repeat<Byte>(0, DataStart(t, offset, padded) - offset - |TensorHead(t)|);
    HoldsParts(full, offset, TensorHead(t), zeros + t.payload);
    HoldsParts(full, offset + |TensorHead(t)|, zeros, t.payload);
  }

  /** The bytes at the recorded place of each tensor are its data. */
  lemma PayloadsInPlace(f: File, k: nat)
    requires ValidFile(f) && ModelOf(f).Ok? && k < |f.tensors|
    ensures
      var m := ModelOf(f).value;
      && |m.tensors| == |f.tensors| && m.tensors[k].start + m.tensors[k].size <= |PutFile(f)|
      && PutFile(f)[m.tensors[k].start..m.tensors[k].start + m.tensors[k].size] == f.tensors[k].payload
  {
    hide PutFile, PutTensors, TensorsAt, Placed, PutHeader, PutWords, PutItems;
    FileParts(f);
    PayloadHeld(PutFile(f), f.tensors, TensorsAt(f), f.header.format == GGJT, k);
  }

  // ---- exactly which cuts go unnoticed ----

  /** Numbers read from the beginning of a file are those of the file. */
  lemma {:induction false} WordsOfPrefix(data: Bytes, full: Bytes, offset: nat, n: nat)
    requires data <= full && ReadWords(data, offset, n).Ok?
    ensures ReadWords(full, offset, n) == ReadWords(data, offset, n) && (n > 0 ==> offset + 4 * n <= |data|)
    decreases n
  {
    if n > 0 {
      assert ReadWord(data, offset) == ReadWord(full, offset);
      WordsOfPrefix(data, full, offset + 4, n - 1);
      hide ReadWord;
    }
  }

  lemma ShortSlice(data: Bytes, offset: nat, n: nat)
    requires offset <= |data| < offset + n
    ensures |Slice(data, offset, n)| < n
  {
  }

  /** A header that is cut gives an error or a shorter name. */
  lemma CutHead(data: Bytes, full: Bytes, offset: nat, t: FileTensor, padded: bool)
    requires ValidTensor(t) && data <= full && Holds(full, offset, TensorHead(t))
    requires |data| < offset + |TensorHead(t)| && ReadTensor(data, offset, padded).Ok?
    ensures ReadTensor(data, offset, padded).value.0.name != t.name
  {
    hide Holds, PutWords, ReadWords, Slice, QuantSize, DataSize, Padding;
    TensorParts(full, offset, t);
    WordsOfPrefix(data, full, offset, 3);
    var n := |t.dims|;
    WordsOfPrefix(data, full, offset + 12, n);
    ShortSlice(data, offset + 12 + 4 * n, |t.name|);
  }

  lemma CutFirst(data: Bytes, offset: nat, t: FileTensor, ts: seq<Tensor>, padded: bool)
    requires ts != [] && ts[0].name == t.name
    requires ReadTensor(data, offset, padded).Ok? ==> ReadTensor(data, offset, padded).value.0.name != t.name
    ensures ReadTensors(data, offset, padded).Ok? ==> ReadTensors(data, offset, padded).value.0 != ts
  {
    hide ReadTensor;
  }

  lemma CutLater(data: Bytes, offset: nat, first: Tensor, next: nat, rest: seq<Tensor>, padded: bool)
    requires offset < |data| && ReadTensor(data, offset, padded) == Ok((first, next))
    requires ReadTensors(data, next, padded).Ok? ==> ReadTensors(data, next, padded).value.0 != rest
    ensures ReadTensors(data, offset, padded).Ok? ==> ReadTensors(data, offset, padded).value.0 != [first] + rest
  {
    hide ReadTensor;
    if ReadTensors(data, next, padded).Ok? {
      SameTail(first, ReadTensors(data, next, padded).value.0, rest);
    }
  }

  lemma SameTail(t: Tensor, xs: seq<Tensor>, ys: seq<Tensor>)
    ensures [t] + xs == [t] + ys ==> xs == ys
  {
    assert ([t] + xs)[1..] == xs && ([t] + ys)[1..] == ys;
  }

  /** If the last header is cut, the tensors read are not those of the file. */
  lemma {:induction false} CutTensors(data: Bytes, full: Bytes, offset: nat, ts: seq<FileTensor>, padded: bool)
    requires ValidTensors(ts) && ts != [] && data <= full && |data| < LastHeader(ts, offset, padded)
    requires Holds(full, offset, PutTensors(ts, offset, padded)) && offset + |PutTensors(ts, offset, padded)| == |full|
    ensures
      ReadTensors(data, offset, padded).Ok? ==>
        ReadTensors(data, offset, padded).value.0 != Placed(ts, offset, padded)
    decreases |ts|
  {
    hide ValidTensor, ReadTensor, TensorHead, DataStart, PutTensor, PutTensors, Holds, ReadTensors;
    TensorsTail(full, offset, ts, padded);
    HeadHeld(full, offset, ts[0], padded);
    var next := offset + |PutTensor(ts[0], offset, padded)|;
    if offset + |TensorHead(ts[0])| <= |data| {
      HoldsCut(data, full, offset, TensorHead(ts[0]));
      ReadPutTensor(data, offset, ts[0], padded);
      CutTensors(data, full, next, ts[1..], padded);
      CutLater(data, offset, Placed(ts, offset, padded)[0], next, Placed(ts[1..], next, padded), padded);
    } else {
      if ReadTensor(data, offset, padded).Ok? {
        CutHead(data, full, offset, ts[0], padded);
      }
      CutFirst(data, offset, ts[0], Placed(ts, offset, padded), padded);
    }
  }

  lemma HeadHeld(full: Bytes, offset: nat, t: FileTensor, padded: bool)
    requires ValidTensor(t) && Holds(full, offset, PutTensor(t, offset, padded))
    ensures Holds(full, offset, TensorHead(t)) && |TensorHead(t)| >= 12
  {
    hide ValidTensor, Holds, TensorHead, DataStart;
    HoldsParts(full, offset, TensorHead(t),
               Repeat<Byte>(0, DataStart(t, offset, padded) - offset - |TensorHead(t)|) + t.payload);
  }

  lemma ItemFits(data: Bytes, offset: nat, scores: bool)
    requires ReadItem(data, offset, scores).Ok? && ReadItem(data, offset, scores).value.1 <= |data|
    ensures
      var (item, end) := ReadItem(data, offset, scores).value;
      ValidItem(item, scores) && end == offset + |PutItem(item, scores)|
  {
  }

  /** Items that end within the data took as many bytes as writing them does. */
  lemma {:induction false} ItemsFit(data: Bytes, offset: nat, n: nat, scores: bool)
    requires ReadItems(data, offset, n, scores).Ok? && ReadItems(data, offset, n, scores).value.1 <= |data|
    ensures
      var (items, end) := ReadItems(data, offset, n, scores).value;
      ValidItems(items, scores) && end == offset + |PutItems(items, scores)|
    decreases n
  {
    hide ReadItem, PutItem, ValidItem;
    if n > 0 {
      var (item, next) := ReadItem(data, offset, scores).value;
      var rest := ReadItems(data, next, n - 1, scores).value;
      ItemFits(data, offset, scores);
      ItemsFit(data, next, n - 1, scores);
      assert ([item] + rest.0)[1..] == rest.0;
    }
  }

  lemma HeaderSize(data: Bytes, h: Header, n: nat)
    requires ReadHeader(data, 0) == Ok((h, n))
    ensures ValidHeader(h) && n == |PutHeader(h)|
  {
    hide Slice, ReadWord;
  }

  /** When a file's items and then some tensors were read, the tensors start where they were written. */
  lemma StartsInPlace(f: File, data: Bytes) returns (at: nat)
    requires ValidFile(f) && ModelOf(f).Ok? && ReadModel(data, 0).Ok? && ReadModel(data, 0).value.0 == ModelOf(f).value
    ensures at == TensorsAt(f) && ReadTensors(data, at, f.header.format == GGJT).Ok?
    ensures ReadTensors(data, at, f.header.format == GGJT).value.0 == ModelOf(f).value.tensors
  {
    hide ReadHeader, ReadHyper, ReadItems, ReadTensors, IndexOf, FeedForward, Convertible;
    hide PutHeader, PutItems, Placed, ValidItems, ValidTensors, HyperWords, AllWords, KnownFtype;
    var (h, n) := ReadHeader(data, 0).value;
    var hp := ReadHyper(data, n).value;
    var scores := h.format != GGML;
    var items := ReadItems(data, n + 28, hp.nVocab, scores).value;
    at := items.1;
    HeaderSize(data, h, n);
    SomeTensors(data, at, h.format == GGJT);
    assert h == f.header && items.0 == f.items;
    NamedTensor(f);
    ItemsFit(data, n + 28, hp.nVocab, scores);
  }

  lemma SomeTensors(data: Bytes, at: nat, padded: bool)
    ensures ReadTensors(data, at, padded).Ok? && ReadTensors(data, at, padded).value.0 != [] ==> at < |data|
  {
  }

  lemma NamedTensor(f: File)
    requires ValidFile(f) && ModelOf(f).Ok?
    ensures f.tensors != [] && ModelOf(f).value.tensors != []
  {
    hide Placed, TensorsAt;
  }

  /**
   Loading the beginning of a file gives the file's model exactly when the beginning has all of the last
   tensor's header: the padding and the data after it may be missing without an error.
   */
  lemma CutLoads(f: File, data: Bytes)
    requires ValidFile(f) && ModelOf(f).Ok? && data <= PutFile(f)
    ensures
      (ReadModel(data, 0).Ok? && ReadModel(data, 0).value.0 == ModelOf(f).value) <==> HeadersEnd(f) <= |data|
  {
    hide ValidFile, ReadModel, ModelOf, PutFile, TensorsAt, ReadTensors, LastHeader, Placed;
    if HeadersEnd(f) <= |data| {
      RoundTrip(f, data);
    } else if ReadModel(data, 0).Ok? && ReadModel(data, 0).value.0 == ModelOf(f).value {
      var at := StartsInPlace(f, data);
      CutNotLoaded(f, data);
    }
  }

  lemma CutNotLoaded(f: File, data: Bytes)
    requires ValidFile(f) && ModelOf(f).Ok? && data <= PutFile(f) && |data| < HeadersEnd(f)
    ensures
      var r := ReadTensors(data, TensorsAt(f), f.header.format == GGJT);
      r.Ok? ==> r.value.0 != ModelOf(f).value.tensors
  {
    hide PutFile, TensorsAt, ReadTensors, LastHeader, Placed, PutTensors, PutHeader, PutWords, PutItems, IndexOf,
         FeedForward;
    NamedTensor(f);
    FileParts(f);
    CutTensors(data, PutFile(f), TensorsAt(f), f.tensors, f.header.format == GGJT);
  }

  // ---- a file cut short ----

  const SMALL: File := File(
    Header(GGML, 1), Hyper(0, 0, 0, 0, 0, 0, ALL_F32, 0), [], [FileTensor(FF_NAME, [1, 1], 0, [0, 0, 0, 0])])

  lemma SmallFile()
    ensures ValidFile(SMALL) && ModelOf(SMALL).Ok?
  {
    assert |FF_NAME| == 31;
    hide FF_NAME;
    var t := SMALL.tensors[0];
    assert Elements([]) == 1 && Elements([1]) == 1 && Elements([1, 1]) == 1 by {
      assert [1, 1][1..] == [1] && [1][1..] == [];
    }
    assert |t.name| == 31;
    assert ValidTensor(t);
    hide PutHeader, PutItems, DataStart;
    var ts := Placed(SMALL.tensors, TensorsAt(SMALL), false);
    assert ts[0].name == t.name && ts[0].dims == [1, 1] && |ts| == 1;
    IndexIs(ts, FF_NAME);
  }

  lemma SmallSize()
    requires ValidFile(SMALL)
    ensures HeadersEnd(SMALL) + 4 == |PutFile(SMALL)|
  {
    FileParts(SMALL);
    hide PutFile, TensorsAt, PutHeader, PutWords, PutItems, ValidFile, Holds;
    var ts := SMALL.tensors;
    assert ts[1..] == [];
    NoTensors(TensorsAt(SMALL) + |PutTensor(ts[0], TensorsAt(SMALL), false)|, false);
  }

  /** Its four bytes of data cut off, the file loads, and the model's tensor lies beyond its end. */
  lemma CutFile()
    ensures
      var data := PutFile(SMALL)[..|PutFile(SMALL)| - 4];
      && ReadModel(data, 0).Ok? && |ReadModel(data, 0).value.0.tensors| == 1
      && var t := ReadModel(data, 0).value.0.tensors[0]; t.start + t.size > |data|
  {
    hide ReadModel, PutFile, TensorsAt;
    SmallFile();
    SmallSize();
    var data := PutFile(SMALL)[..|PutFile(SMALL)| - 4];
    RoundTrip(SMALL, data);
    RegionsApart(data, 0, 0, 0);
  }

  // ---- the constants, spelled out ----

  function Ascii(text: string): (b: Bytes)
    requires forall i :: 0 <= i < |text| ==> text[i] as int < 256
  {
    seq(|text|, i requires 0 <= i < |text| => text[i] as int)
  }

  /** The magics are the texts that the formats put first, and the width is that of one tensor by name. */
  lemma NamesSpelled()
    ensures GGUF_MAGIC == Ascii("GGUF") && GGML_MAGIC == Ascii("lmgg")
    ensures GGMF_MAGIC == Ascii("fmgg") && GGJT_MAGIC == Ascii("tjgg")
    ensures FF_NAME == Ascii("layers.0." + "feed_forward." + "w1.weight")
  {
  }

  /** The file types that a legacy file may have. */
  lemma FtypesKnown(ftype: nat)
    ensures KnownFtype(ftype) <==> ftype in {0, 1, 2, 3, 4, 7, 8, 9, 10, 11, 12, 13, 14, 15, 16, 17, 18}
  {
  }

  /** Unquantised files, whatever their age; with GGJT 2 also those of the K and Q5 types; with GGJT 3 all. */
  predicate Eligible(h: Header, ftype: nat) {
    || ftype in {0, 1}
    || (h == Header(GGJT, 2) && ftype in {8, 9, 10, 11, 12, 13, 14, 15, 16, 17, 18})
    || h == Header(GGJT, 3)
  }

  lemma HeaderVersions(data: Bytes, offset: nat)
    requires ReadHeader(data, offset).Ok?
    ensures
      var h := ReadHeader(data, offset).value.0;
      h in {Header(GGML, 1), Header(GGMF, 1), Header(GGJT, 1), Header(GGJT, 2), Header(GGJT, 3)}
  {
    hide Slice, ReadWord;
  }

  /** A file whose header can be read is refused for its quantisation exactly when it is not eligible. */
  lemma EligibleExactly(data: Bytes, offset: nat)
    requires ReadHeader(data, offset).Ok?
    requires ReadHyper(data, offset + ReadHeader(data, offset).value.1).Ok?
    ensures
      var (h, n) := ReadHeader(data, offset).value;
      var ftype := ReadHyper(data, offset + n).value.ftype;
      && (!Eligible(h, ftype) ==> ReadModel(data, offset) == Err(NotConvertible))
      && (ReadModel(data, offset).Ok? ==> Eligible(h, ftype))
  {
    hide ReadHeader, ReadHyper, ReadItems, ReadRest;
    var (h, n) := ReadHeader(data, offset).value;
    var hp := ReadHyper(data, offset + n).value;
    HeaderVersions(data, offset);
    HyperKnown(data, offset + n);
    FtypesKnown(hp.ftype);
    assert Convertible(h, hp.ftype) <==> Eligible(h, hp.ftype);
  }

  lemma HyperKnown(data: Bytes, offset: nat)
    requires ReadHyper(data, offset).Ok?
    ensures KnownFtype(ReadHyper(data, offset).value.ftype)
  {
    hide ReadWords;
  }

  /** The magics with a version word after them, and the versions that are read. */
  lemma HeaderExactly(data: Bytes, offset: nat)
    ensures
      var magic := Slice(data, offset, 4);
      && (magic == Ascii("GGUF") ==> ReadHeader(data, offset) == Err(AlreadyGguf))
      && (magic == Ascii("lmgg") ==> ReadHeader(data, offset) == Ok((Header(GGML, 1), 4)))
      && (ReadWord(data, offset + 4).Some? ==>
            var v := ReadWord(data, offset + 4).value;
            && (magic == Ascii("fmgg") ==>
                  ReadHeader(data, offset) == if v == 1 then Ok((Header(GGMF, 1), 8)) else Err(UnknownVersion))
            && (magic == Ascii("tjgg") ==>
                  ReadHeader(data, offset) == if v in {1, 2, 3} then Ok((Header(GGJT, v), 8)) else Err(UnknownVersion))
            && (magic !in {Ascii("GGUF"), Ascii("lmgg"), Ascii("fmgg"), Ascii("tjgg")} ==>
                  ReadHeader(data, offset) == Err(UnknownMagic)))
  {
    NamesSpelled();
    hide Slice, ReadWord, Ascii;
    DifferentMagics();
  }

  lemma DifferentMagics()
    ensures GGUF_MAGIC != GGML_MAGIC && GGUF_MAGIC != GGMF_MAGIC && GGUF_MAGIC != GGJT_MAGIC
    ensures GGML_MAGIC != GGMF_MAGIC && GGML_MAGIC != GGJT_MAGIC && GGMF_MAGIC != GGJT_MAGIC
  {
    assert GGUF_MAGIC[0] == 0x47 && GGML_MAGIC[0] == 0x6C && GGMF_MAGIC[0] == 0x66 && GGJT_MAGIC[0] == 0x74;
  }

  /** An item of 4096 bytes or more is refused, and so is a tensor with such a name or more than four dimensions. */
  lemma AbsurdExactly(data: Bytes, offset: nat, scores: bool, padded: bool)
    ensures
      ReadItem(data, offset, scores) == Err(AbsurdItem)
      <==> ReadWord(data, offset).Some? && ReadWord(data, offset).value >= 4096
    ensures
      ReadWords(data, offset, 3).Ok? ==>
        var w := ReadWords(data, offset, 3).value;
        && |w| == 3
        && (w[0] > 4 ==> ReadTensor(data, offset, padded) == Err(TooManyDims))
        && (w[0] <= 4 && w[1] >= 4096 ==> ReadTensor(data, offset, padded) == Err(AbsurdName))
        && (ReadTensor(data, offset, padded).Ok? ==> w[0] <= 4 && w[1] < 4096)
  {
    hide Slice, ReadWord, ReadWords, QuantSize, DataSize, Padding;
  }

  const QK_K: nat := 256

  /** Bytes for a block of each type: its scales and minima, and the bits of its elements. */
  lemma BlockSizes()
    ensures QuantSize(0) == Some((1, 4)) && QuantSize(1) == Some((1, 2))
    ensures QuantSize(2) == Some((32, 2 + 32 * 4 / 8)) && QuantSize(3) == Some((32, 2 + 2 + 32 * 4 / 8))
    ensures QuantSize(6) == Some((32, 2 + 32 * 5 / 8)) && QuantSize(7) == Some((32, 2 + 2 + 32 * 5 / 8))
    ensures QuantSize(8) == Some((32, 2 + 32)) && QuantSize(9) == Some((32, 4 + 4 + 32))
    ensures QuantSize(10) == Some((QK_K, 2 + 2 + QK_K / 16 + QK_K * 2 / 8))
    ensures QuantSize(11) == Some((QK_K, 2 + 12 + QK_K * 3 / 8))
    ensures QuantSize(12) == Some((QK_K, 2 + 2 + 12 + QK_K * 4 / 8))
    ensures QuantSize(13) == Some((QK_K, 2 + 2 + 12 + QK_K * 5 / 8))
    ensures QuantSize(14) == Some((QK_K, 2 + QK_K / 16 + QK_K * 6 / 8))
    ensures QuantSize(15) == Some((QK_K, 4 + QK_K + QK_K / 8))
    ensures forall t :: t == 4 || t == 5 || t >= 45 ==> QuantSize(t) == None
  {
  }
}
