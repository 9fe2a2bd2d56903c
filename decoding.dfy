/**
 * `glove_tokenizer`: turn a padded id list back into words for the ELMo encoder,
 * and the round trip from `sent_to_ids` through it.
 */
module Decoding {
  import opened Wrappers
  import Text
  import opened Vocab
  import opened Encoding

  /** Python's `KeyError` for an id missing from `id2word`. */
  datatype MissingId = MissingId(id: int)

  /** The ids the tokenizer keeps: every id except 0, in order. */
  function NonZero(ids: seq<int>): seq<int>
  {
    if ids == [] then []
    else (if ids[0] == 0 then [] else [ids[0]]) + NonZero(ids[1..])
  }

  /** `NonZero` keeps exactly the non-zero ids: none when all are 0, all when none is. */
  lemma {:induction false} NonZeroFacts(ids: seq<int>)
    ensures var r := NonZero(ids);
      && |r| <= |ids|
      && (forall k :: 0 <= k < |r| ==> r[k] != 0 && r[k] in ids)
      && ((forall k :: 0 <= k < |ids| ==> ids[k] != 0) ==> r == ids)
      && ((forall k :: 0 <= k < |ids| ==> ids[k] == 0) ==> r == [])
  {
    if ids != [] {
      NonZeroFacts(ids[1..]);
      assert forall k :: 1 <= k < |ids| ==> ids[k] == ids[1..][k - 1];
      assert ids == [ids[0]] + ids[1..];
    }
  }

  /**
   * `glove_tokenizer(ids, id2word)`: `[id2word[x] for x in ids if x != 0]`. The first
   * non-zero id that `id2word` lacks raises.
   */
  function GloveTokenizer(ids: seq<int>, i2w: map<int, string>): (r: Result<seq<string>, MissingId>)
    ensures r.Success? <==> forall k :: 0 <= k < |ids| && ids[k] != 0 ==> ids[k] in i2w
    ensures r.Failure? ==> r.error.id != 0 && r.error.id !in i2w && r.error.id in ids
  {
    if ids == [] then Success([])
    else
      assert forall k :: 1 <= k < |ids| ==> ids[k] == ids[1..][k - 1];
      if ids[0] == 0 then GloveTokenizer(ids[1..], i2w)
      else if ids[0] !in i2w then Failure(MissingId(ids[0]))
      else
        var rest := GloveTokenizer(ids[1..], i2w);
        if rest.Failure? then rest else Success([i2w[ids[0]]] + rest.value)
  }

  /** A successful decoding maps every non-zero id, in order, to its word. */
  lemma {:induction false} GloveTokenizerWords(ids: seq<int>, i2w: map<int, string>)
    requires GloveTokenizer(ids, i2w).Success?
    ensures var r := GloveTokenizer(ids, i2w).value;
      && |r| == |NonZero(ids)|
      && forall k :: 0 <= k < |r| ==> NonZero(ids)[k] in i2w && r[k] == i2w[NonZero(ids)[k]]
  {
    if ids != [] {
      var rest := ids[1..];
      assert GloveTokenizer(rest, i2w).Success?;
      GloveTokenizerWords(rest, i2w);
      if ids[0] == 0 {
        assert NonZero(ids) == NonZero(rest);
        assert GloveTokenizer(ids, i2w) == GloveTokenizer(rest, i2w);
      } else {
        assert NonZero(ids) == [ids[0]] + NonZero(rest);
        assert GloveTokenizer(ids, i2w).value == [i2w[ids[0]]] + GloveTokenizer(rest, i2w).value;
      }
    }
  }

  /** The error names the first missing non-zero id, the one the comprehension reaches first. */
  lemma {:induction false} GloveTokenizerFirstMissing(ids: seq<int>, i2w: map<int, string>)
    requires GloveTokenizer(ids, i2w).Failure?
    ensures exists j :: 0 <= j < |ids| && ids[j] == GloveTokenizer(ids, i2w).error.id
                        && forall k :: 0 <= k < j && ids[k] != 0 ==> ids[k] in i2w
  {
    if ids[0] == 0 || ids[0] in i2w {
      GloveTokenizerFirstMissing(ids[1..], i2w);
      var j :| 0 <= j < |ids[1..]| && ids[1..][j] == GloveTokenizer(ids[1..], i2w).error.id
               && forall k :: 0 <= k < j && ids[1..][k] != 0 ==> ids[1..][k] in i2w;
      assert forall k :: 1 <= k < j + 1 ==> ids[k] == ids[1..][k - 1];
      assert ids[j + 1] == GloveTokenizer(ids, i2w).error.id;
    } else {
      assert ids[0] == GloveTokenizer(ids, i2w).error.id;
    }
  }

  /** Dropping the 0 ids distributes over concatenation. */
  lemma {:induction false} NonZeroAppend(x: seq<int>, y: seq<int>)
    ensures NonZero(x + y) == NonZero(x) + NonZero(y)
  {
    if x == [] {
      assert x + y == y;
    } else {
      var xy := x + y;
      assert xy[0] == x[0] && xy[1..] == x[1..] + y;
      var head := if x[0] == 0 then [] else [x[0]];
      assert NonZero(xy) == head + NonZero(xy[1..]);
      NonZeroAppend(x[1..], y);
      assert NonZero(x) == head + NonZero(x[1..]);
      assert (head + NonZero(x[1..])) + NonZero(y) == head + (NonZero(x[1..]) + NonZero(y));
    }
  }

  /**
   * A padded id list whose first `n` ids are non-zero and known and whose remaining ids
   * are 0 decodes to the words of the first `n` ids.
   */
  lemma DecodePadded(ids: seq<int>, n: nat, i2w: map<int, string>)
    requires n <= |ids|
    requires forall k :: 0 <= k < n ==> ids[k] != 0 && ids[k] in i2w
    requires forall k :: n <= k < |ids| ==> ids[k] == 0
    ensures GloveTokenizer(ids, i2w).Success?
    ensures |GloveTokenizer(ids, i2w).value| == n
    ensures forall k :: 0 <= k < n ==> GloveTokenizer(ids, i2w).value[k] == i2w[ids[k]]
  {
    assert ids == ids[..n] + ids[n..];
    NonZeroAppend(ids[..n], ids[n..]);
    NonZeroFacts(ids[..n]);
    NonZeroFacts(ids[n..]);
    GloveTokenizerWords(ids, i2w);
  }

  /** The unknown tokens replaced by `<unk>`, as `use_unk` does. */
  function UnkTokens(tokens: seq<string>, w2i: map<string, int>): (r: seq<string>)
    ensures |r| == |tokens|
    ensures forall k :: 0 <= k < |r| ==> r[k] == if tokens[k] in w2i then tokens[k] else UNK
  {
    if tokens == [] then []
    else [if tokens[0] in w2i then tokens[0] else UNK] + UnkTokens(tokens[1..], w2i)
  }

  /**
   * The words whose ids `sent_to_ids` writes before truncation: the tokens (unknown ones
   * as `<unk>`) or the known tokens, and `<empty>` when there are none.
   */
  function Surviving(tokens: seq<string>, w2i: map<string, int>, useUnk: bool): seq<string>
  {
    var s := if useUnk then UnkTokens(tokens, w2i) else KnownTokens(tokens, w2i);
    if s == [] then [EMPTY] else s
  }

  /**
   * The prefix `sent_to_ids` writes is the ids of the first `min(|s|, padLen)`
   * surviving words `s`.
   */
  lemma EncodePrefix(text: string, w2i: map<string, int>, useUnk: bool, padLen: nat, padInt: int)
    requires HasReserved(w2i)
    ensures var e, s := Encode(text, w2i, useUnk, padLen, padInt).value, Surviving(Text.Split(text), w2i, useUnk);
      && e.textLen == (if |s| < padLen then |s| else padLen)
      && forall k :: 0 <= k < e.textLen ==> s[k] in w2i && e.ids[k] == w2i[s[k]]
  {
    var tokens := Text.Split(text);
    EncodeShape(text, w2i, useUnk, padLen, padInt);
    if useUnk {
      EncodeWithUnk(text, w2i, padLen, padInt);
    } else {
      EncodeDropping(text, w2i, padLen, padInt);
      KnownTokensEmpty(tokens, w2i);
    }
  }

  /** No token survives the lookup without `use_unk` exactly when none is known. */
  lemma KnownTokensEmpty(tokens: seq<string>, w2i: map<string, int>)
    ensures KnownTokens(tokens, w2i) == [] <==> forall i :: 0 <= i < |tokens| ==> tokens[i] !in w2i
  {
    var known := KnownTokens(tokens, w2i);
    if known != [] {
      assert known[0] in known;
    }
  }

  /** `<pad>` survives only if it was a token. */
  lemma SurvivingNotPad(tokens: seq<string>, w2i: map<string, int>, useUnk: bool)
    requires PAD !in tokens
    ensures forall k :: 0 <= k < |Surviving(tokens, w2i, useUnk)| ==> Surviving(tokens, w2i, useUnk)[k] != PAD
  {
    var s := Surviving(tokens, w2i, useUnk);
    forall k | 0 <= k < |s|
      ensures s[k] != PAD
    {
      if useUnk && UnkTokens(tokens, w2i) != [] {
        assert s[k] == tokens[k] || s[k] == UNK;
      } else if !useUnk && KnownTokens(tokens, w2i) != [] {
        assert s[k] in KnownTokens(tokens, w2i);
      }
    }
  }

  /**
   * The round trip: when `<pad>` has id 0, every other id is non-zero and names its word
   * in `id2word`, and the text does not contain the token `<pad>` itself, decoding the
   * ids of `sent_to_ids` gives back the first `min(|s|, padLen)` surviving words `s`.
   */
  lemma DecodeEncode(text: string, w2i: map<string, int>, i2w: map<int, string>, useUnk: bool, padLen: nat)
    requires HasReserved(w2i) && w2i[PAD] == 0
    requires forall w :: w in w2i && w != PAD ==> w2i[w] != 0 && w2i[w] in i2w && i2w[w2i[w]] == w
    requires PAD !in Text.Split(text)
    ensures GloveTokenizer(Encode(text, w2i, useUnk, padLen, 0).value.ids, i2w)
            == Success(PyPrefix(Surviving(Text.Split(text), w2i, useUnk), padLen))
  {
    var e, s := Encode(text, w2i, useUnk, padLen, 0).value, Surviving(Text.Split(text), w2i, useUnk);
    EncodePrefix(text, w2i, useUnk, padLen, 0);
    EncodeShape(text, w2i, useUnk, padLen, 0);
    SurvivingNotPad(Text.Split(text), w2i, useUnk);
    DecodeWords(e.ids, e.textLen, s, w2i, i2w, padLen);
  }

  /** The round trip for any padded id list that holds the ids of a prefix of the words `s`. */
  lemma DecodeWords(ids: seq<int>, n: nat, s: seq<string>, w2i: map<string, int>, i2w: map<int, string>, padLen: nat)
    requires |ids| == padLen && n == (if |s| < padLen then |s| else padLen)
    requires forall k :: 0 <= k < n ==> s[k] in w2i && ids[k] == w2i[s[k]] && s[k] != PAD
    requires forall k :: n <= k < padLen ==> ids[k] == 0
    requires forall w :: w in w2i && w != PAD ==> w2i[w] != 0 && w2i[w] in i2w && i2w[w2i[w]] == w
    ensures GloveTokenizer(ids, i2w) == Success(PyPrefix(s, padLen))
  {
    DecodePadded(ids, n, i2w);
    var r := GloveTokenizer(ids, i2w).value;
    assert forall k :: 0 <= k < n ==> r[k] == s[k];
    assert r == PyPrefix(s, padLen);
  }

  /**
   * The round trip for a vocabulary `build_vocab` returns, when no corpus word is
   * spelled like a reserved token and the text does not contain `<pad>`.
   */
  lemma DecodeVocab(ws: seq<string>, vocabSize: int, fillVocab: bool, text: string, useUnk: bool, padLen: nat)
    requires VocabOf(ws, vocabSize, fillVocab).Success?
    requires NoReservedWord(ws)
    requires PAD !in Text.Split(text)
    ensures var v := VocabOf(ws, vocabSize, fillVocab).value;
      v.word2id[PAD] == 0
      && GloveTokenizer(Encode(text, v.word2id, useUnk, padLen, v.word2id[PAD]).value.ids, v.id2word)
         == Success(PyPrefix(Surviving(Text.Split(text), v.word2id, useUnk), padLen))
  {
    var v := VocabOf(ws, vocabSize, fillVocab).value;
    VocabHasReserved(ws, vocabSize, fillVocab);
    VocabInverse(ws, vocabSize, fillVocab);
    VocabIds(ws, vocabSize, fillVocab);
    DecodeEncode(text, v.word2id, v.id2word, useUnk, padLen);
  }
}
