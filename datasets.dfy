/**
 * `TrainDataSet` and `TestDataSet`: each encodes the three cleaned turns of every
 * conversation with `sent_to_ids` and keeps the results in parallel lists; the
 * training set also keeps the three label views of every class index.
 */
module Datasets {
  import opened Wrappers
  import opened Corpus
  import opened Vocab
  import opened Encoding
  import opened Labels
  import Text

  /** `sent_to_ids(text)` for a map that holds the reserved tokens, with `pad_int = word2id['<pad>']`. */
  function EncodeTurn(text: string, w2i: map<string, int>, useUnk: bool, padLen: nat): Encoded
    requires HasReserved(w2i)
  {
    Encode(text, w2i, useUnk, padLen, w2i[PAD]).value
  }

  /** `EncodeTurn` once the lookup has produced `found` and truncation has kept `kept`. */
  lemma EncodeTurnIs(text: string, w2i: map<string, int>, useUnk: bool, padLen: nat, found: seq<int>, kept: seq<int>)
    requires HasReserved(w2i)
    requires found == if useUnk then UnkIds(Text.Split(text), w2i) else KnownIds(Text.Split(text), w2i)
    requires kept == Truncate(if found == [] then [w2i[EMPTY]] else found, padLen)
    ensures EncodeTurn(text, w2i, useUnk, padLen) == Encoded(kept + Pad(w2i[PAD], padLen - |kept|), |kept|, found == [])
  {
  }

  /** `sent_to_ids` of one dataset: the settings it reads from the dataset are fixed. */
  type SentenceEncoder = string -> Encoded

  function SentEncoder(w2i: map<string, int>, useUnk: bool, padLen: nat): SentenceEncoder
    requires HasReserved(w2i)
  {
    text => EncodeTurn(text, w2i, useUnk, padLen)
  }

  /** Applying the encoder of a dataset is `EncodeTurn` with its settings. */
  lemma SentEncoderApply(w2i: map<string, int>, useUnk: bool, padLen: nat, x: Conversation)
    requires HasReserved(w2i)
    ensures var enc := SentEncoder(w2i, useUnk, padLen);
      && enc(x.a) == EncodeTurn(x.a, w2i, useUnk, padLen)
      && enc(x.b) == EncodeTurn(x.b, w2i, useUnk, padLen)
      && enc(x.c) == EncodeTurn(x.c, w2i, useUnk, padLen)
  {
  }

  /** How much one `sent_to_ids` call adds to `num_empty_lines`. */
  function EmptyFlag(e: Encoded): nat
  {
    if e.wasEmpty then 1 else 0
  }

  /** The id lists appended for turn `t`: entry `k` is the encoding of that turn of conversation `k`. */
  function TurnIds(data: seq<Conversation>, t: Turn, enc: SentenceEncoder): (r: seq<seq<int>>)
    ensures |r| == |data|
    ensures forall k :: 0 <= k < |data| ==> r[k] == enc(Cleaned(data[k], t)).ids
  {
    if data == [] then []
    else
      var init := data[..|data| - 1];
      assert forall k :: 0 <= k < |init| ==> init[k] == data[k];
      TurnIds(init, t, enc) + [enc(Cleaned(data[|data| - 1], t)).ids]
  }

  /** The true lengths appended for turn `t`: entry `k` is that turn's length in conversation `k`. */
  function TurnLens(data: seq<Conversation>, t: Turn, enc: SentenceEncoder): (r: seq<nat>)
    ensures |r| == |data|
    ensures forall k :: 0 <= k < |data| ==> r[k] == enc(Cleaned(data[k], t)).textLen
  {
    if data == [] then []
    else
      var init := data[..|data| - 1];
      assert forall k :: 0 <= k < |init| ==> init[k] == data[k];
      TurnLens(init, t, enc) + [enc(Cleaned(data[|data| - 1], t)).textLen]
  }

  /** How much `num_empty_lines` grows while reading `data`: one per turn without surviving ids. */
  function EmptyLines(data: seq<Conversation>, enc: SentenceEncoder): (n: nat)
    ensures n <= 3 * |data|
  {
    if data == [] then 0
    else
      var d := data[|data| - 1];
      EmptyLines(data[..|data| - 1], enc) + EmptyFlag(enc(d.a)) + EmptyFlag(enc(d.b)) + EmptyFlag(enc(d.c))
  }

  /**
   * With `sent_to_ids` as the encoder, every id list of a turn is `padLen` long and
   * its true length is between 1 (when `padLen` is positive) and `padLen`.
   */
  lemma TurnShape(data: seq<Conversation>, t: Turn, w2i: map<string, int>, useUnk: bool, padLen: nat)
    requires HasReserved(w2i)
    ensures var enc := SentEncoder(w2i, useUnk, padLen);
      forall k :: 0 <= k < |data| ==>
        && |TurnIds(data, t, enc)[k]| == padLen
        && TurnLens(data, t, enc)[k] <= padLen
        && (padLen >= 1 ==> TurnLens(data, t, enc)[k] >= 1)
  {
    var enc := SentEncoder(w2i, useUnk, padLen);
    forall k | 0 <= k < |data| {
      EncodeShape(Cleaned(data[k], t), w2i, useUnk, padLen, w2i[PAD]);
    }
  }

  /** The six turn lists and the empty-line counter of a dataset, as one value. */
  datatype TurnColumns = TurnColumns(a: seq<seq<int>>, b: seq<seq<int>>, c: seq<seq<int>>,
                                     aLen: seq<nat>, bLen: seq<nat>, cLen: seq<nat>, numEmptyLines: nat)

  /** One iteration of `read_data` on the turn lists: encode the three cleaned turns and append them. */
  function ReadOne(s: TurnColumns, x: Conversation, enc: SentenceEncoder): TurnColumns
  {
    var ea, eb, ec := enc(x.a), enc(x.b), enc(x.c);
    TurnColumns(s.a + [ea.ids], s.b + [eb.ids], s.c + [ec.ids], s.aLen + [ea.textLen], s.bLen + [eb.textLen], s.cLen + [ec.textLen],
                s.numEmptyLines + EmptyFlag(ea) + EmptyFlag(eb) + EmptyFlag(ec))
  }

  /** `ReadOne` on the three encodings of the turns. */
  lemma ReadOneOf(s: TurnColumns, x: Conversation, enc: SentenceEncoder, ea: Encoded, eb: Encoded, ec: Encoded)
    requires ea == enc(x.a) && eb == enc(x.b) && ec == enc(x.c)
    ensures ReadOne(s, x, enc)
         == TurnColumns(s.a + [ea.ids], s.b + [eb.ids], s.c + [ec.ids], s.aLen + [ea.textLen], s.bLen + [eb.textLen],
                        s.cLen + [ec.textLen], s.numEmptyLines + EmptyFlag(ea) + EmptyFlag(eb) + EmptyFlag(ec))
  {
  }

  /** `read_data`'s loop on the turn lists, starting from `s`. */
  function ReadAll(s: TurnColumns, data: seq<Conversation>, enc: SentenceEncoder): TurnColumns
  {
    if data == [] then s else ReadOne(ReadAll(s, data[..|data| - 1], enc), data[|data| - 1], enc)
  }

  /** The id list of turn `t`. */
  function TurnOf(s: TurnColumns, t: Turn): seq<seq<int>>
  {
    match t
    case A => s.a
    case B => s.b
    case C => s.c
  }

  /** The length list of turn `t`. */
  function LenOf(s: TurnColumns, t: Turn): seq<nat>
  {
    match t
    case A => s.aLen
    case B => s.bLen
    case C => s.cLen
  }

  /** Reading `data` appends to the id list of turn `t` that list's value for `data` alone. */
  lemma {:induction false} ReadAllIds(s: TurnColumns, data: seq<Conversation>, t: Turn, enc: SentenceEncoder)
    ensures TurnOf(ReadAll(s, data, enc), t) == TurnOf(s, t) + TurnIds(data, t, enc)
  {
    if data == [] {
      assert TurnOf(s, t) + [] == TurnOf(s, t);
    } else {
      var init, x := data[..|data| - 1], data[|data| - 1];
      ReadAllIds(s, init, t, enc);
      assert (TurnOf(s, t) + TurnIds(init, t, enc)) + [enc(Cleaned(x, t)).ids] == TurnOf(s, t) + (TurnIds(init, t, enc) + [enc(Cleaned(x, t)).ids]);
    }
  }

  /** The same for the length list of turn `t`. */
  lemma {:induction false} ReadAllLens(s: TurnColumns, data: seq<Conversation>, t: Turn, enc: SentenceEncoder)
    ensures LenOf(ReadAll(s, data, enc), t) == LenOf(s, t) + TurnLens(data, t, enc)
  {
    if data == [] {
      assert LenOf(s, t) + [] == LenOf(s, t);
    } else {
      var init, x := data[..|data| - 1], data[|data| - 1];
      ReadAllLens(s, init, t, enc);
      assert (LenOf(s, t) + TurnLens(init, t, enc)) + [enc(Cleaned(x, t)).textLen] == LenOf(s, t) + (TurnLens(init, t, enc) + [enc(Cleaned(x, t)).textLen]);
    }
  }

  /** Reading `data` adds its empty lines to the counter. */
  lemma {:induction false} ReadAllEmpty(s: TurnColumns, data: seq<Conversation>, enc: SentenceEncoder)
    ensures ReadAll(s, data, enc).numEmptyLines == s.numEmptyLines + EmptyLines(data, enc)
  {
    if data != [] {
      ReadAllEmpty(s, data[..|data| - 1], enc);
    }
  }

  /** Reading `data` appends, to each list, that list's value for `data` alone, and adds its empty lines to the counter. */
  lemma ReadAllAppends(s: TurnColumns, data: seq<Conversation>, enc: SentenceEncoder)
    ensures var r := ReadAll(s, data, enc);
      && r.a == s.a + TurnIds(data, A, enc) && r.b == s.b + TurnIds(data, B, enc) && r.c == s.c + TurnIds(data, C, enc)
      && r.aLen == s.aLen + TurnLens(data, A, enc) && r.bLen == s.bLen + TurnLens(data, B, enc)
      && r.cLen == s.cLen + TurnLens(data, C, enc)
      && r.numEmptyLines == s.numEmptyLines + EmptyLines(data, enc)
  {
    ReadAllIds(s, data, A, enc);
    ReadAllIds(s, data, B, enc);
    ReadAllIds(s, data, C, enc);
    ReadAllLens(s, data, A, enc);
    ReadAllLens(s, data, B, enc);
    ReadAllLens(s, data, C, enc);
    ReadAllEmpty(s, data, enc);
  }

  /** Reading one more conversation is one more `ReadOne`. */
  lemma ReadAllStep(s: TurnColumns, data: seq<Conversation>, i: nat, enc: SentenceEncoder)
    requires i < |data|
    ensures ReadAll(s, data[..i + 1], enc) == ReadOne(ReadAll(s, data[..i], enc), data[i], enc)
  {
    assert data[..i + 1][..i] == data[..i];
  }

  /** The `e_c`, `e_c_binary` and `e_c_emo` lists for the class indices `ys`. */
  function Indexes(ys: seq<Emo>): (r: seq<int>)
    ensures r == ys
    ensures |r| == |ys| && forall k :: 0 <= k < |ys| ==> r[k] == Derive(ys[k]).index
  {
    if ys == [] then [] else Indexes(ys[..|ys| - 1]) + [ys[|ys| - 1]]
  }

  function Binaries(ys: seq<Emo>): (r: seq<int>)
    ensures |r| == |ys| && forall k :: 0 <= k < |ys| ==> r[k] == Derive(ys[k]).binary
  {
    if ys == [] then [] else Binaries(ys[..|ys| - 1]) + [Derive(ys[|ys| - 1]).binary]
  }

  function EmoVectors(ys: seq<Emo>): (r: seq<seq<int>>)
    ensures |r| == |ys| && forall k :: 0 <= k < |ys| ==> r[k] == Derive(ys[k]).emo
  {
    if ys == [] then [] else EmoVectors(ys[..|ys| - 1]) + [Derive(ys[|ys| - 1]).emo]
  }

  /** The three label lists of a training set, as one value. */
  datatype LabelColumns = LabelColumns(eC: seq<int>, eCBinary: seq<int>, eCEmo: seq<seq<int>>)

  /** Append the label triple of class `y`. */
  function AddLabel(l: LabelColumns, y: Emo): LabelColumns
  {
    var t := Derive(y);
    LabelColumns(l.eC + [t.index], l.eCBinary + [t.binary], l.eCEmo + [t.emo])
  }

  function AddLabels(l: LabelColumns, ys: seq<Emo>): LabelColumns
  {
    if ys == [] then l else AddLabel(AddLabels(l, ys[..|ys| - 1]), ys[|ys| - 1])
  }

  /** Reading `ys` appends the three label lists of `ys` alone. */
  lemma {:induction false} AddLabelsAppends(l: LabelColumns, ys: seq<Emo>)
    ensures AddLabels(l, ys) == LabelColumns(l.eC + Indexes(ys), l.eCBinary + Binaries(ys), l.eCEmo + EmoVectors(ys))
  {
    if ys == [] {
      assert l.eC + [] == l.eC && l.eCBinary + [] == l.eCBinary && l.eCEmo + [] == l.eCEmo;
    } else {
      var init, y := ys[..|ys| - 1], ys[|ys| - 1];
      AddLabelsAppends(l, init);
      assert (l.eC + Indexes(init)) + [Derive(y).index] == l.eC + (Indexes(init) + [Derive(y).index]);
      assert (l.eCBinary + Binaries(init)) + [Derive(y).binary] == l.eCBinary + (Binaries(init) + [Derive(y).binary]);
      assert (l.eCEmo + EmoVectors(init)) + [Derive(y).emo] == l.eCEmo + (EmoVectors(init) + [Derive(y).emo]);
    }
  }

  lemma AddLabelsStep(l: LabelColumns, ys: seq<Emo>, i: nat)
    requires i < |ys|
    ensures AddLabels(l, ys[..i + 1]) == AddLabel(AddLabels(l, ys[..i]), ys[i])
  {
    assert ys[..i + 1][..i] == ys[..i];
  }

  class TrainDataSet {
    const sentPadLen: nat
    const convPadLen: int
    const word2id: map<string, int>
    const padInt: int
    const useUnk: bool

    var a: seq<seq<int>>
    var b: seq<seq<int>>
    var c: seq<seq<int>>
    var aLen: seq<nat>
    var bLen: seq<nat>
    var cLen: seq<nat>
    var eC: seq<int>
    var eCBinary: seq<int>
    var eCEmo: seq<seq<int>>
    var numEmptyLines: nat

    /** `pad_int` is the id of `<pad>`, and the lookups of `sent_to_ids` cannot raise. */
    predicate Valid()
      reads this
    {
      HasReserved(word2id) && padInt == word2id[PAD]
    }

    constructor (dataList: seq<Conversation>, targetList: seq<Emo>, convPadLen: int, sentPadLen: nat,
                 word2id: map<string, int>, useUnk: bool)
      requires HasReserved(word2id)
      requires |dataList| == |targetList|
      ensures Valid()
      ensures this.sentPadLen == sentPadLen && this.convPadLen == convPadLen
      ensures this.word2id == word2id && this.useUnk == useUnk
      ensures a == TurnIds(dataList, A, SentEncoder(word2id, useUnk, sentPadLen))
      ensures b == TurnIds(dataList, B, SentEncoder(word2id, useUnk, sentPadLen))
      ensures c == TurnIds(dataList, C, SentEncoder(word2id, useUnk, sentPadLen))
      ensures aLen == TurnLens(dataList, A, SentEncoder(word2id, useUnk, sentPadLen))
      ensures bLen == TurnLens(dataList, B, SentEncoder(word2id, useUnk, sentPadLen))
      ensures cLen == TurnLens(dataList, C, SentEncoder(word2id, useUnk, sentPadLen))
      ensures numEmptyLines == EmptyLines(dataList, SentEncoder(word2id, useUnk, sentPadLen))
      ensures eC == Indexes(targetList) && eCBinary == Binaries(targetList) && eCEmo == EmoVectors(targetList)
    {
      this.sentPadLen := sentPadLen;
      this.convPadLen := convPadLen;
      this.word2id := word2id;
      this.padInt := word2id[PAD];
      this.useUnk := useUnk;
      a, b, c := [], [], [];
      aLen, bLen, cLen := [], [], [];
      numEmptyLines := 0;
      eC, eCBinary, eCEmo := [], [], [];
      new;
      ReadData(dataList, targetList);
      ghost var enc := SentEncoder(word2id, useUnk, sentPadLen);
      ReadAllAppends(TurnColumns([], [], [], [], [], [], 0), dataList, enc);
      assert [] + TurnIds(dataList, A, enc) == TurnIds(dataList, A, enc);
      assert [] + TurnIds(dataList, B, enc) == TurnIds(dataList, B, enc);
      assert [] + TurnIds(dataList, C, enc) == TurnIds(dataList, C, enc);
      assert [] + TurnLens(dataList, A, enc) == TurnLens(dataList, A, enc);
      assert [] + TurnLens(dataList, B, enc) == TurnLens(dataList, B, enc);
      assert [] + TurnLens(dataList, C, enc) == TurnLens(dataList, C, enc);
      AddLabelsAppends(LabelColumns([], [], []), targetList);
    }

    /** `sent_to_ids(text)`: the padded ids and the true length; counts a turn without surviving ids. */
    method SentToIds(text: string) returns (ids: seq<int>, textLen: nat)
      requires Valid()
      modifies this`numEmptyLines
      ensures var e := EncodeTurn(text, word2id, useUnk, sentPadLen);
        ids == e.ids && textLen == e.textLen
        && numEmptyLines == old(numEmptyLines) + (if e.wasEmpty then 1 else 0)
    {
      assert padInt == word2id[PAD];
      var tokens := Text.Split(text);
      var tmp := if useUnk then UnkIds(tokens, word2id) else KnownIds(tokens, word2id);
      ghost var found := tmp;
      if |tmp| == 0 {
        tmp := [word2id[EMPTY]];
        numEmptyLines := numEmptyLines + 1;
      }
      ghost var full := tmp;
      if |tmp| > sentPadLen {
        tmp := tmp[..sentPadLen];
      }
      textLen := |tmp|;
      ids := tmp + Pad(padInt, sentPadLen - |tmp|);
      assert tmp == Truncate(full, sentPadLen);
      EncodeTurnIs(text, word2id, useUnk, sentPadLen, found, tmp);
    }

    /** The turn lists and the counter, as one value. */
    function Turns(): TurnColumns
      reads this
    {
      TurnColumns(a, b, c, aLen, bLen, cLen, numEmptyLines)
    }

    /** The turn half of one iteration of `read_data`'s loop. */
    method ReadTurns(x: Conversation)
      requires Valid()
      modifies this`a, this`b, this`c, this`aLen, this`bLen, this`cLen, this`numEmptyLines
      ensures Turns() == ReadOne(old(Turns()), x, SentEncoder(word2id, useUnk, sentPadLen))
    {
      SentEncoderApply(word2id, useUnk, sentPadLen, x);
      ReadOneOf(Turns(), x, SentEncoder(word2id, useUnk, sentPadLen), EncodeTurn(x.a, word2id, useUnk, sentPadLen),
                EncodeTurn(x.b, word2id, useUnk, sentPadLen), EncodeTurn(x.c, word2id, useUnk, sentPadLen));
      var sa, saLen := SentToIds(x.a);
      var sb, sbLen := SentToIds(x.b);
      var sc, scLen := SentToIds(x.c);
      a, b, c := a + [sa], b + [sb], c + [sc];
      aLen, bLen, cLen := aLen + [saLen], bLen + [sbLen], cLen + [scLen];
    }

    /** The label lists, as one value. */
    function Labels(): LabelColumns
      reads this
    {
      LabelColumns(eC, eCBinary, eCEmo)
    }

    /** The label half of one iteration of `read_data`'s loop: the index, the "others" flag and the one-hot row. */
    method AppendLabels(y: Emo)
      modifies this`eC, this`eCBinary, this`eCEmo
      ensures Labels() == AddLabel(old(Labels()), y)
    {
      eC := eC + [y];
      eCBinary := eCBinary + [if y == |EMOS| - 1 then 1 else 0];
      var eCEmoRow := seq(|EMOS| - 1, _ => 0);
      if y < |EMOS| - 1 {
        eCEmoRow := eCEmoRow[y := 1];
      }
      assert eCEmoRow == Derive(y).emo;
      eCEmo := eCEmo + [eCEmoRow];
    }

    /** One iteration of `read_data`'s loop: the turns of `x`, then the label views of `y`. */
    method ReadExample(x: Conversation, y: Emo)
      requires Valid()
      modifies this`a, this`b, this`c, this`aLen, this`bLen, this`cLen, this`numEmptyLines, this`eC, this`eCBinary, this`eCEmo
      ensures Turns() == ReadOne(old(Turns()), x, SentEncoder(word2id, useUnk, sentPadLen))
      ensures Labels() == AddLabel(old(Labels()), y)
    {
      ReadTurns(x);
      AppendLabels(y);
    }

    /** `read_data`: encode the turns of every conversation and derive the label views of its class. */
    method ReadData(dataList: seq<Conversation>, targetList: seq<Emo>)
      requires Valid()
      requires |dataList| == |targetList|
      modifies this
      ensures Valid()
      ensures Turns() == ReadAll(old(Turns()), dataList, SentEncoder(word2id, useUnk, sentPadLen))
      ensures Labels() == AddLabels(old(Labels()), targetList)
    {
      for i := 0 to |dataList|
        invariant Turns() == ReadAll(old(Turns()), dataList[..i], SentEncoder(word2id, useUnk, sentPadLen))
        invariant Labels() == AddLabels(old(Labels()), targetList[..i])
      {
        ReadAllStep(old(Turns()), dataList, i, SentEncoder(word2id, useUnk, sentPadLen));
        AddLabelsStep(old(Labels()), targetList, i);
        ReadExample(dataList[i], targetList[i]);
      }
      assert dataList[..|dataList|] == dataList;
      assert targetList[..|targetList|] == targetList;
    }
  }

  class TestDataSet {
    const sentPadLen: nat
    const convPadLen: int
    const word2id: map<string, int>
    const padInt: int
    const useUnk: bool
    const exWord2id: map<string, int>
    const exId2word: map<int, string>

    var a: seq<seq<int>>
    var b: seq<seq<int>>
    var c: seq<seq<int>>
    var aLen: seq<nat>
    var bLen: seq<nat>
    var cLen: seq<nat>
    var numEmptyLines: nat
    var unkWordsIdx: set<int>

    /** `pad_int` is the id of `<pad>`, and the lookups of `sent_to_ids` cannot raise. */
    predicate Valid()
      reads this
    {
      HasReserved(word2id) && padInt == word2id[PAD]
    }

    constructor (dataList: seq<Conversation>, convPadLen: int, sentPadLen: nat,
                 word2id: map<string, int>, id2word: map<int, string>, useUnk: bool)
      requires HasReserved(word2id)
      ensures Valid()
      ensures this.sentPadLen == sentPadLen && this.convPadLen == convPadLen
      ensures this.word2id == word2id && this.useUnk == useUnk
      ensures exWord2id == word2id && exId2word == id2word && unkWordsIdx == {}
      ensures a == TurnIds(dataList, A, SentEncoder(word2id, useUnk, sentPadLen))
      ensures b == TurnIds(dataList, B, SentEncoder(word2id, useUnk, sentPadLen))
      ensures c == TurnIds(dataList, C, SentEncoder(word2id, useUnk, sentPadLen))
      ensures aLen == TurnLens(dataList, A, SentEncoder(word2id, useUnk, sentPadLen))
      ensures bLen == TurnLens(dataList, B, SentEncoder(word2id, useUnk, sentPadLen))
      ensures cLen == TurnLens(dataList, C, SentEncoder(word2id, useUnk, sentPadLen))
      ensures numEmptyLines == EmptyLines(dataList, SentEncoder(word2id, useUnk, sentPadLen))
    {
      this.sentPadLen := sentPadLen;
      this.convPadLen := convPadLen;
      this.word2id := word2id;
      this.padInt := word2id[PAD];
      this.useUnk := useUnk;
      a, b, c := [], [], [];
      aLen, bLen, cLen := [], [], [];
      numEmptyLines := 0;
      exWord2id := word2id;
      exId2word := id2word;
      unkWordsIdx := {};
      new;
      ReadData(dataList);
      ghost var enc := SentEncoder(word2id, useUnk, sentPadLen);
      ReadAllAppends(TurnColumns([], [], [], [], [], [], 0), dataList, enc);
      assert [] + TurnIds(dataList, A, enc) == TurnIds(dataList, A, enc);
      assert [] + TurnIds(dataList, B, enc) == TurnIds(dataList, B, enc);
      assert [] + TurnIds(dataList, C, enc) == TurnIds(dataList, C, enc);
      assert [] + TurnLens(dataList, A, enc) == TurnLens(dataList, A, enc);
      assert [] + TurnLens(dataList, B, enc) == TurnLens(dataList, B, enc);
      assert [] + TurnLens(dataList, C, enc) == TurnLens(dataList, C, enc);
    }

    /** `sent_to_ids(text)`: the padded ids and the true length; counts a turn without surviving ids. */
    method SentToIds(text: string) returns (ids: seq<int>, textLen: nat)
      requires Valid()
      modifies this`numEmptyLines
      ensures var e := EncodeTurn(text, word2id, useUnk, sentPadLen);
        ids == e.ids && textLen == e.textLen
        && numEmptyLines == old(numEmptyLines) + (if e.wasEmpty then 1 else 0)
    {
      assert padInt == word2id[PAD];
      var tokens := Text.Split(text);
      var tmp := if useUnk then UnkIds(tokens, word2id) else KnownIds(tokens, word2id);
      ghost var found := tmp;
      if |tmp| == 0 {
        tmp := [word2id[EMPTY]];
        numEmptyLines := numEmptyLines + 1;
      }
      ghost var full := tmp;
      if |tmp| > sentPadLen {
        tmp := tmp[..sentPadLen];
      }
      textLen := |tmp|;
      ids := tmp + Pad(padInt, sentPadLen - |tmp|);
      assert tmp == Truncate(full, sentPadLen);
      EncodeTurnIs(text, word2id, useUnk, sentPadLen, found, tmp);
    }

    /** The turn lists and the counter, as one value. */
    function Turns(): TurnColumns
      reads this
    {
      TurnColumns(a, b, c, aLen, bLen, cLen, numEmptyLines)
    }

    /** The turn half of one iteration of `read_data`'s loop. */
    method ReadTurns(x: Conversation)
      requires Valid()
      modifies this`a, this`b, this`c, this`aLen, this`bLen, this`cLen, this`numEmptyLines
      ensures Turns() == ReadOne(old(Turns()), x, SentEncoder(word2id, useUnk, sentPadLen))
    {
      SentEncoderApply(word2id, useUnk, sentPadLen, x);
      ReadOneOf(Turns(), x, SentEncoder(word2id, useUnk, sentPadLen), EncodeTurn(x.a, word2id, useUnk, sentPadLen),
                EncodeTurn(x.b, word2id, useUnk, sentPadLen), EncodeTurn(x.c, word2id, useUnk, sentPadLen));
      var sa, saLen := SentToIds(x.a);
      var sb, sbLen := SentToIds(x.b);
      var sc, scLen := SentToIds(x.c);
      a, b, c := a + [sa], b + [sb], c + [sc];
      aLen, bLen, cLen := aLen + [saLen], bLen + [sbLen], cLen + [scLen];
    }

    /** `read_data`: encode the turns of every conversation. */
    method ReadData(dataList: seq<Conversation>)
      requires Valid()
      modifies this
      ensures Valid()
      ensures unkWordsIdx == old(unkWordsIdx)
      ensures Turns() == ReadAll(old(Turns()), dataList, SentEncoder(word2id, useUnk, sentPadLen))
    {
      for i := 0 to |dataList|
        invariant unkWordsIdx == old(unkWordsIdx)
        invariant Turns() == ReadAll(old(Turns()), dataList[..i], SentEncoder(word2id, useUnk, sentPadLen))
      {
        ReadAllStep(old(Turns()), dataList, i, SentEncoder(word2id, useUnk, sentPadLen));
        ReadTurns(dataList[i]);
      }
      assert dataList[..|dataList|] == dataList;
    }
  }
}
