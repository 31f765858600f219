/**
 The reader for model files in the three legacy formats. Models GGMLModel, Hyperparameters, Vocab and Tensor
 of convert_llama_ggml_to_gguf.py.
 */
module GgmlFile {
  import opened Common

  type Bytes = seq<Byte>

  datatype Format = GGML | GGMF | GGJT

  datatype Error =
    | Truncated
    | AlreadyGguf | UnknownMagic | UnknownVersion | UnknownFtype | NotConvertible
    | AbsurdItem
    | TooManyDims | AbsurdName | UnknownType | NegativeSize
    | NoFeedForward | FlatFeedForward

  datatype Hyper = Hyper(
    nVocab: nat, nEmbd: nat, nMult: nat, nHead: nat, nLayer: nat, nRot: nat, ftype: nat, nFf: nat)

  /** A token's text and the four bytes of its score; the oldest format has no scores. */
  datatype Item = Item(text: Bytes, score: Option<Bytes>)

  datatype Tensor = Tensor(name: Bytes, dims: seq<nat>, dtype: nat, start: nat, size: nat)

  datatype Model = Model(
    format: Format, version: nat, hyper: Hyper, items: seq<Item>, tensors: seq<Tensor>, index: map<Bytes, nat>)

  // ---- numbers ----

  const WORD: nat := 0x1_0000_0000

  /** A little-endian 32-bit number, if there are four bytes. */
  function ReadWord(data: Bytes, offset: nat): (r: Option<nat>)
    ensures r.Some? <==> offset + 4 <= |data|
    ensures r.Some? ==> r.value < WORD
  {
    if offset + 4 > |data| then None
    else Some(data[offset] as int + 0x100 * data[offset + 1] as int + 0x1_0000 * data[offset + 2] as int
              + 0x100_0000 * data[offset + 3] as int)
  }

  function ReadWords(data: Bytes, offset: nat, n: nat): (r: Result<seq<nat>, Error>)
    ensures r.Ok? ==> |r.value| == n && forall k :: 0 <= k < n ==> r.value[k] < WORD
    ensures r.Err? ==> r.error == Truncated
    decreases n
  {
    if n == 0 then Ok([])
    else
      match ReadWord(data, offset)
      case None => Err(Truncated)
      case Some(w) =>
        var rest :- ReadWords(data, offset + 4, n - 1);
        Ok([w] + rest)
  }

  /** A slice as Python takes it: what lies beyond the end is left out. */
  function Slice(data: Bytes, offset: nat, n: nat): (r: Bytes)
    ensures |r| <= n
    ensures offset + n <= |data| ==> r == data[offset..offset + n]
  {
    var lo := if offset <= |data| then offset else |data|;
    var hi := if offset + n <= |data| then offset + n else |data|;
    data[lo..hi]
  }

  // ---- the header ----

  const GGUF_MAGIC: Bytes := [0x47, 0x47, 0x55, 0x46]
  const GGML_MAGIC: Bytes := [0x6C, 0x6D, 0x67, 0x67]
  const GGMF_MAGIC: Bytes := [0x66, 0x6D, 0x67, 0x67]
  const GGJT_MAGIC: Bytes := [0x74, 0x6A, 0x67, 0x67]

  datatype Header = Header(format: Format, version: nat)

  function ReadHeader(data: Bytes, offset: nat): Result<(Header, nat), Error> {
    var magic := Slice(data, offset, 4);
    if magic == GGUF_MAGIC then Err(AlreadyGguf)
    else if magic == GGML_MAGIC then Ok((Header(GGML, 1), 4))
    else
      match ReadWord(data, offset + 4)
      case None => Err(Truncated)
      case Some(version) =>
        if magic == GGMF_MAGIC then
          if version != 1 then Err(UnknownVersion) else Ok((Header(GGMF, version), 8))
        else if magic == GGJT_MAGIC then
          if version < 1 || version > 3 then Err(UnknownVersion) else Ok((Header(GGJT, version), 8))
        else Err(UnknownMagic)
  }

  const ALL_F32: nat := 0
  const MOSTLY_F16: nat := 1
  const MOSTLY_Q4_0: nat := 2
  const MOSTLY_Q4_1: nat := 3
  const MOSTLY_Q4_1_SOME_F16: nat := 4
  const MOSTLY_Q8_0: nat := 7
  const MOSTLY_Q6_K: nat := 18

  predicate KnownFtype(ftype: nat) {
    ftype <= MOSTLY_Q4_1_SOME_F16 || MOSTLY_Q8_0 <= ftype <= MOSTLY_Q6_K
  }

  /** Quantised files older than the current quantisations cannot be converted. */
  predicate Convertible(h: Header, ftype: nat) {
    if h.format != GGJT || h.version < 2 then ftype == ALL_F32 || ftype == MOSTLY_F16
    else if h.version == 2 then
      ftype != MOSTLY_Q4_0 && ftype != MOSTLY_Q4_1 && ftype != MOSTLY_Q4_1_SOME_F16 && ftype != MOSTLY_Q8_0
    else true
  }

  function ReadHyper(data: Bytes, offset: nat): Result<Hyper, Error> {
    var w :- ReadWords(data, offset, 7);
    if KnownFtype(w[6]) then Ok(Hyper(w[0], w[1], w[2], w[3], w[4], w[5], w[6], 0)) else Err(UnknownFtype)
  }

  // ---- the vocabulary ----

  const LIMIT: nat := 4096

  function ReadItem(data: Bytes, offset: nat, scores: bool): (r: Result<(Item, nat), Error>)
    ensures r.Ok? ==> offset < r.value.1
  {
    match ReadWord(data, offset)
    case None => Err(Truncated)
    case Some(n) =>
      if n >= LIMIT then Err(AbsurdItem)
      else
        var text := Slice(data, offset + 4, n);
        var next := offset + 4 + n;
        if !scores then Ok((Item(text, None), next))
        else if next + 4 > |data| then Err(Truncated)
        else Ok((Item(text, Some(data[next..next + 4])), next + 4))
  }

  function ReadItems(data: Bytes, offset: nat, n: nat, scores: bool): (r: Result<(seq<Item>, nat), Error>)
    ensures r.Ok? ==> offset <= r.value.1 && |r.value.0| == n
    decreases n
  {
    if n == 0 then Ok(([], offset))
    else
      var first :- ReadItem(data, offset, scores);
      var rest :- ReadItems(data, first.1, n - 1, scores);
      Ok(([first.0] + rest.0, rest.1))
  }

  // ---- tensors ----

  /** Elements in a block, and bytes for it. */
  function QuantSize(dtype: nat): (r: Option<(nat, nat)>)
    ensures r.Some? ==> r.value.0 > 0 && r.value.1 > 0
  {
    match dtype
    case 0 => Some((1, 4))
    case 1 => Some((1, 2))
    case 2 => Some((32, 18))
    case 3 => Some((32, 20))
    case 6 => Some((32, 22))
    case 7 => Some((32, 24))
    case 8 => Some((32, 34))
    case 9 => Some((32, 40))
    case 10 => Some((256, 84))
    case 11 => Some((256, 110))
    case 12 => Some((256, 144))
    case 13 => Some((256, 176))
    case 14 => Some((256, 210))
    case 15 => Some((256, 292))
    case 16 => Some((256, 66))
    case 17 => Some((256, 74))
    case 18 => Some((256, 98))
    case 19 => Some((256, 50))
    case 20 => Some((32, 18))
    case 21 => Some((256, 110))
    case 22 => Some((256, 82))
    case 23 => Some((256, 136))
    case 24 => Some((1, 1))
    case 25 => Some((1, 2))
    case 26 => Some((1, 4))
    case 27 => Some((1, 8))
    case 28 => Some((1, 8))
    case 29 => Some((256, 56))
    case 30 => Some((1, 2))
    case 34 => Some((256, 54))
    case 35 => Some((256, 66))
    case 39 => Some((32, 17))
    case 40 => Some((64, 36))
    case 41 => Some((128, 18))
    case 42 => Some((64, 18))
    case 43 => Some((2560, 1440))
    case 44 => Some((640, 360))
    case _ => None
  }

  function Elements(dims: seq<nat>): nat {
    if dims == [] then 1 else dims[0] * Elements(dims[1..])
  }

  /** A number as it stands in a signed 64-bit integer. */
  function ToInt64(n: nat): (r: int)
    ensures -0x8000_0000_0000_0000 <= r < 0x8000_0000_0000_0000
    ensures n < 0x8000_0000_0000_0000 ==> r == n
  {
    var m := n % 0x1_0000_0000_0000_0000;
    if m < 0x8000_0000_0000_0000 then m else m - 0x1_0000_0000_0000_0000
  }

  /** The bytes of a tensor's data, from a product that wraps around at 64 bits; none if it is negative. */
  function DataSize(dims: seq<nat>, dtype: nat): (r: Option<nat>)
    requires QuantSize(dtype).Some?
  {
    var (block, size) := QuantSize(dtype).value;
    var total := ToInt64(Elements(dims) * size);
    if total >= 0 then Some(total / block) else None
  }

  /** What takes an offset to the next multiple of 32. */
  function Padding(offset: nat, padded: bool): (r: nat)
    ensures r < 32 && (padded ==> (offset + r) % 32 == 0)
  {
    if padded then (32 - offset % 32) % 32 else 0
  }

  function ReadTensor(data: Bytes, offset: nat, padded: bool): (r: Result<(Tensor, nat), Error>)
    ensures r.Ok? ==> offset + 12 <= r.value.0.start && r.value.0.start + r.value.0.size == r.value.1
    ensures r.Ok? && padded ==> r.value.0.start % 32 == 0
  {
    hide QuantSize, DataSize, Padding;
    var w :- ReadWords(data, offset, 3);
    if w[0] > 4 then Err(TooManyDims)
    else if w[1] >= LIMIT then Err(AbsurdName)
    else if QuantSize(w[2]) == None then Err(UnknownType)
    else
      var dims :- ReadWords(data, offset + 12, w[0]);
      var named := offset + 12 + 4 * w[0];
      var name := Slice(data, named, w[1]);
      var after := named + w[1];
      var start := after + Padding(after, padded);
      match DataSize(dims, w[2])
      case None => Err(NegativeSize)
      case Some(size) => Ok((Tensor(name, dims, w[2], start, size), start + size))
  }

  function ReadTensors(data: Bytes, offset: nat, padded: bool): (r: Result<(seq<Tensor>, nat), Error>)
    ensures r.Ok? ==> r.value.1 >= |data| && r.value.1 >= offset
    decreases |data| - offset
  {
    if offset >= |data| then Ok(([], offset))
    else
      var first :- ReadTensor(data, offset, padded);
      var rest :- ReadTensors(data, first.1, padded);
      Ok(([first.0] + rest.0, rest.1))
  }

  /** The position of the last tensor of each name. */
  function IndexOf(tensors: seq<Tensor>): (r: map<Bytes, nat>)
    ensures forall name :: name in r ==> r[name] < |tensors|
    decreases |tensors|
  {
    if tensors == [] then map[] else IndexOf(Init(tensors))[Last(tensors).name := |tensors| - 1]
  }

  /** layers.0.feed_forward.w1.weight, in ASCII. */
  const FF_NAME: Bytes := [
    108, 97, 121, 101, 114, 115, 46, 48, 46,
    102, 101, 101, 100, 95, 102, 111, 114, 119, 97, 114, 100, 46,
    119, 49, 46, 119, 101, 105, 103, 104, 116]

  /** The feed-forward width is the second dimension of the first layer's tensor. */
  function FeedForward(tensors: seq<Tensor>, index: map<Bytes, nat>): Result<nat, Error>
    requires forall name :: name in index ==> index[name] < |tensors|
  {
    if FF_NAME !in index then Err(NoFeedForward)
    else
      var dims := tensors[index[FF_NAME]].dims;
      if |dims| < 2 then Err(FlatFeedForward) else Ok(dims[1])
  }

  function Assemble(h: Header, hp: Hyper, items: seq<Item>, tensors: seq<Tensor>): Result<Model, Error> {
    var nFf :- FeedForward(tensors, IndexOf(tensors));
    Ok(Model(h.format, h.version, hp.(nFf := nFf), items, tensors, IndexOf(tensors)))
  }

  function ReadRest(data: Bytes, h: Header, hp: Hyper, items: seq<Item>, at: nat): Result<(Model, nat), Error> {
    var tensors :- ReadTensors(data, at, h.format == GGJT);
    var m :- Assemble(h, hp, items, tensors.0);
    Ok((m, tensors.1))
  }

  function ReadBody(data: Bytes, h: Header, at: nat): Result<(Model, nat), Error> {
    var hp :- ReadHyper(data, at);
    if !Convertible(h, hp.ftype) then Err(NotConvertible)
    else
      var items :- ReadItems(data, at + 28, hp.nVocab, h.format != GGML);
      ReadRest(data, h, hp, items.0, items.1)
  }

  /** The whole file, and the offset after the last tensor. */
  function ReadModel(data: Bytes, offset: nat): Result<(Model, nat), Error> {
    var header :- ReadHeader(data, offset);
    ReadBody(data, header.0, offset + header.1)
  }

  // ---- the loaders ----

  class Hyperparameters {
    var nVocab: nat
    var nEmbd: nat
    var nMult: nat
    var nHead: nat
    var nLayer: nat
    var nRot: nat
    var nFf: nat
    var ftype: nat

    ghost function View(): Hyper
      reads this
    {
      Hyper(nVocab, nEmbd, nMult, nHead, nLayer, nRot, ftype, nFf)
    }

    constructor ()
      ensures View() == Hyper(0, 0, 0, 0, 0, 0, ALL_F32, 0)
    {
      nVocab, nEmbd, nMult, nHead, nLayer, nRot, nFf, ftype := 0, 0, 0, 0, 0, 0, 0, ALL_F32;
    }

    method Load(data: Bytes, offset: nat) returns (r: Result<nat, Error>)
      modifies this
      ensures r.Ok? ==> ReadHyper(data, offset) == Ok(View().(nFf := 0)) && r.value == 28 && nFf == old(nFf)
      ensures r.Err? ==> ReadHyper(data, offset) == Err(r.error)
    {
      hide ReadWords;
      var words := ReadWords(data, offset, 7);
      if words.Err? {
        return Err(words.error);
      }
      var w := words.value;
      nVocab, nEmbd, nMult, nHead, nLayer, nRot := w[0], w[1], w[2], w[3], w[4], w[5];
      if !KnownFtype(w[6]) {
        return Err(UnknownFtype);
      }
      ftype := w[6];
      return Ok(28);
    }

    method SetFeedForward(tensors: seq<Tensor>, index: map<Bytes, nat>) returns (r: Result<nat, Error>)
      requires forall name :: name in index ==> index[name] < |tensors|
      modifies this
      ensures r == FeedForward(tensors, index)
      ensures View() == if r.Ok? then old(View()).(nFf := r.value) else old(View())
    {
      if FF_NAME !in index {
        return Err(NoFeedForward);
      }
      var t := tensors[index[FF_NAME]];
      if |t.dims| < 2 {
        return Err(FlatFeedForward);
      }
      nFf := t.dims[1];
      return Ok(nFf);
    }
  }

  class Vocab {
    const loadScores: bool
    var items: seq<Item>

    constructor (loadScores: bool)
      ensures this.loadScores == loadScores && items == []
    {
      this.loadScores := loadScores;
      items := [];
    }

    /** Appends n items; the result is the number of bytes they took. */
    method Load(data: Bytes, offset: nat, n: nat) returns (r: Result<nat, Error>)
      modifies this
      ensures
        match ReadItems(data, offset, n, loadScores)
        case Ok((read, end)) => r == Ok(end - offset) && items == old(items) + read
        case Err(e) => r == Err(e)
    {
      hide ReadItem, Slice;
      var at := offset;
      var done := 0;
      while done < n
        invariant done <= n && offset <= at
        invariant
          match ReadItems(data, at, n - done, loadScores)
          case Ok((read, end)) => ReadItems(data, offset, n, loadScores).Ok?
                                  && old(items) + ReadItems(data, offset, n, loadScores).value.0 == items + read
                                  && ReadItems(data, offset, n, loadScores).value.1 == end
          case Err(e) => ReadItems(data, offset, n, loadScores) == Err(e)
      {
        var item := ReadItem(data, at, loadScores);
        if item.Err? {
          return Err(item.error);
        }
        items := items + [item.value.0];
        at := item.value.1;
        done := done + 1;
      }
      return Ok(at - offset);
    }
  }

  class GgmlModel {
    var format: Format
    var version: nat
    var hyper: Hyper
    var items: seq<Item>
    var tensors: seq<Tensor>
    var index: map<Bytes, nat>

    ghost function View(): Model
      reads this
    {
      Model(format, version, hyper, items, tensors, index)
    }

    constructor ()
      ensures tensors == [] && index == map[]
    {
      format, version, hyper := GGML, 0, Hyper(0, 0, 0, 0, 0, 0, ALL_F32, 0);
      items, tensors, index := [], [], map[];
    }

    method ValidateHeader(data: Bytes, offset: nat) returns (r: Result<nat, Error>)
      modifies this`format, this`version
      ensures
        match ReadHeader(data, offset)
        case Ok((h, n)) => r == Ok(n) && h == Header(format, version)
        case Err(e) => r == Err(e)
    {
      hide Slice, ReadWord;
      var magic := Slice(data, offset, 4);
      if magic == GGUF_MAGIC {
        return Err(AlreadyGguf);
      }
      if magic == GGML_MAGIC {
        format, version := GGML, 1;
        return Ok(4);
      }
      var word := ReadWord(data, offset + 4);
      if word == None {
        return Err(Truncated);
      }
      if magic == GGMF_MAGIC {
        if word.value != 1 {
          return Err(UnknownVersion);
        }
        format, version := GGMF, word.value;
        return Ok(8);
      }
      if magic == GGJT_MAGIC {
        if word.value < 1 || word.value > 3 {
          return Err(UnknownVersion);
        }
        format, version := GGJT, word.value;
        return Ok(8);
      }
      return Err(UnknownMagic);
    }

    /** Reads the file; the result is the offset after the last tensor. */
    method Load(data: Bytes, offset: nat) returns (r: Result<nat, Error>)
      modifies this
      ensures
        match ReadModel(data, offset)
        case Ok((m, end)) => r == Ok(end) && View() == m
        case Err(e) => r == Err(e)
    {
      hide ReadHeader, ReadHyper, ReadItems, ReadTensors, IndexOf, FeedForward, Convertible;
      var header := ValidateHeader(data, offset);
      if header.Err? {
        return Err(header.error);
      }
      var at := offset + header.value;
      var hp := new Hyperparameters();
      var hpRead := hp.Load(data, at);
      if hpRead.Err? {
        return Err(hpRead.error);
      }
      at := at + hpRead.value;
      if !Convertible(Header(format, version), hp.ftype) {
        return Err(NotConvertible);
      }
      var vocab := new Vocab(format != GGML);
      var vocabRead := vocab.Load(data, at, hp.nVocab);
      if vocabRead.Err? {
        return Err(vocabRead.error);
      }
      var read := LoadTensors(data, at + vocabRead.value, format == GGJT);
      if read.Err? {
        return Err(read.error);
      }
      var (found, map_, end) := read.value;
      var nFf := hp.SetFeedForward(found, map_);
      if nFf.Err? {
        return Err(nFf.error);
      }
      hyper := Hyper(hp.nVocab, hp.nEmbd, hp.nMult, hp.nHead, hp.nLayer, hp.nRot, hp.ftype, hp.nFf);
      items, tensors, index := vocab.items, found, map_;
      return Ok(end);
    }
  }

  type TensorsRead = Result<(seq<Tensor>, nat), Error>

  /** Tensors read before the rest, if the rest can be read. */
  function Ahead(tensors: seq<Tensor>, r: TensorsRead): TensorsRead {
    match r
    case Ok((read, end)) => Ok((tensors + read, end))
    case Err(e) => Err(e)
  }

  lemma AheadStep(tensors: seq<Tensor>, data: Bytes, at: nat, padded: bool)
    requires at < |data|
    ensures
      match ReadTensor(data, at, padded)
      case Ok((t, next)) =>
        Ahead(tensors, ReadTensors(data, at, padded)) == Ahead(tensors + [t], ReadTensors(data, next, padded))
      case Err(e) => Ahead(tensors, ReadTensors(data, at, padded)) == Err(e)
  {
    hide ReadTensor;
    var r := ReadTensor(data, at, padded);
    if r.Ok? {
      var rest := ReadTensors(data, r.value.1, padded);
      if rest.Ok? {
        assert tensors + ([r.value.0] + rest.value.0) == (tensors + [r.value.0]) + rest.value.0;
      }
    }
  }

  lemma AheadEnds(tensors: seq<Tensor>, data: Bytes, at: nat, padded: bool)
    requires at >= |data|
    ensures Ahead(tensors, ReadTensors(data, at, padded)) == Ok((tensors, at))
  {
    assert tensors + [] == tensors;
  }

  lemma AheadOfAll(r: TensorsRead)
    ensures Ahead([], r) == r
  {
    if r.Ok? {
      assert [] + r.value.0 == r.value.0;
    }
  }

  /** Tensors until the data is used up, with the position of each name. */
  method LoadTensors(data: Bytes, offset: nat, padded: bool)
    returns (r: Result<(seq<Tensor>, map<Bytes, nat>, nat), Error>)
    ensures
      match ReadTensors(data, offset, padded)
      case Ok((read, end)) => r == Ok((read, IndexOf(read), end))
      case Err(e) => r == Err(e)
  {
    hide ReadTensor, ReadTensors, Ahead;
    var at := offset;
    var tensors: seq<Tensor> := [];
    var index: map<Bytes, nat> := map[];
    AheadOfAll(ReadTensors(data, offset, padded));
    while at < |data|
      invariant index == IndexOf(tensors)
      invariant Ahead(tensors, ReadTensors(data, at, padded)) == ReadTensors(data, offset, padded)
      decreases |data| - at
    {
      AheadStep(tensors, data, at, padded);
      var t := ReadTensor(data, at, padded);
      if t.Err? {
        return Err(t.error);
      }
      IndexMore(tensors, t.value.0);
      index := index[t.value.0.name := |tensors|];
      tensors := tensors + [t.value.0];
      at := t.value.1;
    }
    AheadEnds(tensors, data, at, padded);
    r := Ok((tensors, index, at));
  }

  lemma IndexMore(tensors: seq<Tensor>, t: Tensor)
    ensures IndexOf(tensors + [t]) == IndexOf(tensors)[t.name := |tensors|]
  {
    assert Init(tensors + [t]) == tensors;
  }
}
