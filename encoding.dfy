/**
 * `sent_to_ids` as a value: split a cleaned turn into tokens, look each token up in
 * `word2id`, replace an empty result by the `<empty>` id, truncate to the padding
 * length, pad with the pad id and report the true length.
 */
module Encoding {
  import opened Wrappers
  import Text
  import opened Vocab

  /** Python's `KeyError` for a dictionary lookup of `key`. */
  datatype KeyError = KeyError(key: string)

  /** `word2id` holds all three reserved tokens, as every map `build_vocab` returns does. */
  predicate HasReserved(w2i: map<string, int>)
  {
    PAD in w2i && UNK in w2i && EMPTY in w2i
  }

  /** Every token of `tokens` is a key of `w2i`. */
  predicate AllKnown(tokens: seq<string>, w2i: map<string, int>)
  {
    forall i :: 0 <= i < |tokens| ==> tokens[i] in w2i
  }

  /**
   * The `use_unk` comprehension: each token's id, or the `<unk>` id for a token
   * missing from `w2i` (the `<unk>` entry is read only when such a token occurs).
   */
  function UnkIds(tokens: seq<string>, w2i: map<string, int>): (r: seq<int>)
    requires AllKnown(tokens, w2i) || UNK in w2i
    ensures |r| == |tokens|
    ensures forall i :: 0 <= i < |r| && tokens[i] in w2i ==> r[i] == w2i[tokens[i]]
    ensures forall i :: 0 <= i < |r| && tokens[i] !in w2i ==> r[i] == w2i[UNK]
  {
    if tokens == [] then []
    else [if tokens[0] in w2i then w2i[tokens[0]] else w2i[UNK]] + UnkIds(tokens[1..], w2i)
  }

  /** The comprehension without `use_unk`: the ids of the known tokens, in order; misses are dropped. */
  function KnownIds(tokens: seq<string>, w2i: map<string, int>): (r: seq<int>)
    ensures |r| <= |tokens|
  {
    if tokens == [] then []
    else (if tokens[0] in w2i then [w2i[tokens[0]]] else []) + KnownIds(tokens[1..], w2i)
  }

  /** The tokens that are keys of `w2i`, in order. */
  function KnownTokens(tokens: seq<string>, w2i: map<string, int>): (r: seq<string>)
    ensures AllKnown(r, w2i)
    ensures forall x :: x in r <==> x in tokens && x in w2i
    ensures AllKnown(tokens, w2i) ==> r == tokens
  {
    if tokens == [] then []
    else
      assert tokens == [tokens[0]] + tokens[1..];
      (if tokens[0] in w2i then [tokens[0]] else []) + KnownTokens(tokens[1..], w2i)
  }

  /** Dropping the misses and then looking up is looking up the known tokens. */
  lemma {:induction false} KnownIdsOfKnownTokens(tokens: seq<string>, w2i: map<string, int>)
    ensures KnownIds(tokens, w2i) == UnkIds(KnownTokens(tokens, w2i), w2i)
  {
    if tokens != [] {
      KnownIdsOfKnownTokens(tokens[1..], w2i);
      var ks := KnownTokens(tokens[1..], w2i);
      if tokens[0] in w2i {
        assert ([tokens[0]] + ks)[1..] == ks;
      }
    }
  }

  /** No id survives the lookup without `use_unk` exactly when no token is known. */
  lemma {:induction false} KnownIdsEmpty(tokens: seq<string>, w2i: map<string, int>)
    ensures KnownIds(tokens, w2i) == [] <==> forall i :: 0 <= i < |tokens| ==> tokens[i] !in w2i
  {
    if tokens != [] {
      KnownIdsEmpty(tokens[1..], w2i);
      assert forall i :: 1 <= i < |tokens| ==> tokens[i] == tokens[1..][i - 1];
    }
  }

  /** With every token known, both lookup modes give the same ids. */
  lemma KnownIdsAllKnown(tokens: seq<string>, w2i: map<string, int>)
    requires AllKnown(tokens, w2i)
    ensures KnownIds(tokens, w2i) == UnkIds(tokens, w2i)
  {
    KnownIdsOfKnownTokens(tokens, w2i);
  }

  /** What `sent_to_ids` returns, together with whether the `<empty>` substitution happened. */
  datatype Encoded = Encoded(ids: seq<int>, textLen: nat, wasEmpty: bool)

  function Pad(padInt: int, n: nat): (r: seq<int>)
    ensures |r| == n && forall i :: 0 <= i < n ==> r[i] == padInt
  {
    seq(n, _ => padInt)
  }

  /** `tmp[:padLen]` when `tmp` is longer, `tmp` otherwise. */
  function Truncate(tmp: seq<int>, padLen: nat): (r: seq<int>)
    ensures |r| == if |tmp| > padLen then padLen else |tmp|
    ensures r == tmp[..|r|]
  {
    if |tmp| > padLen then tmp[..padLen] else tmp
  }

  /**
   * `sent_to_ids(text)` for a dataset with the given `word2id`, `use_unk`,
   * `sent_pad_len` and `pad_int`. A missing `<unk>` or `<empty>` entry that the call
   * reads raises `KeyError`.
   */
  function Encode(text: string, w2i: map<string, int>, useUnk: bool, padLen: nat, padInt: int): (r: Result<Encoded, KeyError>)
    ensures HasReserved(w2i) ==> r.Success?
  {
    var tokens := Text.Split(text);
    if useUnk && !AllKnown(tokens, w2i) && UNK !in w2i then Failure(KeyError(UNK))
    else
      var found := if useUnk then UnkIds(tokens, w2i) else KnownIds(tokens, w2i);
      if found == [] && EMPTY !in w2i then Failure(KeyError(EMPTY))
      else
        var tmp := if found == [] then [w2i[EMPTY]] else found;
        var kept := Truncate(tmp, padLen);
        Success(Encoded(kept + Pad(padInt, padLen - |kept|), |kept|, found == []))
  }

  /**
   * The shape of a successful `sent_to_ids`: exactly `padLen` ids, a true length of at
   * least 1 (for a positive `padLen`) and at most `padLen`, pad ids after it, and the
   * `<empty>` id alone in front when nothing survived the lookup.
   */
  lemma EncodeShape(text: string, w2i: map<string, int>, useUnk: bool, padLen: nat, padInt: int)
    requires Encode(text, w2i, useUnk, padLen, padInt).Success?
    ensures var e := Encode(text, w2i, useUnk, padLen, padInt).value;
      && |e.ids| == padLen && e.textLen <= padLen
      && (padLen >= 1 ==> e.textLen >= 1)
      && (forall i :: e.textLen <= i < padLen ==> e.ids[i] == padInt)
      && (e.wasEmpty ==> EMPTY in w2i && (padLen >= 1 ==> e.textLen == 1 && e.ids[0] == w2i[EMPTY]))
  {
  }

  /** When `sent_to_ids` raises: a missing `<unk>` entry is read, or a missing `<empty>` entry. */
  lemma EncodeFails(text: string, w2i: map<string, int>, useUnk: bool, padLen: nat, padInt: int)
    ensures var tokens := Text.Split(text);
      Encode(text, w2i, useUnk, padLen, padInt).Failure? <==>
        if useUnk then (UNK !in w2i && !AllKnown(tokens, w2i)) || (EMPTY !in w2i && tokens == [])
        else EMPTY !in w2i && forall i :: 0 <= i < |tokens| ==> tokens[i] !in w2i
  {
    var tokens := Text.Split(text);
    if useUnk {
      if AllKnown(tokens, w2i) || UNK in w2i {
        assert UnkIds(tokens, w2i) == [] <==> tokens == [];
      }
    } else {
      KnownIdsEmpty(tokens, w2i);
    }
  }

  /**
   * With `use_unk`: the substitution happens exactly for a text without tokens;
   * otherwise the prefix is the first `min(#tokens, padLen)` tokens, each as its id or
   * as the `<unk>` id.
   */
  lemma EncodeWithUnk(text: string, w2i: map<string, int>, padLen: nat, padInt: int)
    requires Encode(text, w2i, true, padLen, padInt).Success?
    ensures var tokens, e := Text.Split(text), Encode(text, w2i, true, padLen, padInt).value;
      && (e.wasEmpty <==> tokens == [])
      && (!e.wasEmpty ==> e.textLen == (if |tokens| < padLen then |tokens| else padLen))
      && (!e.wasEmpty ==> forall i :: 0 <= i < e.textLen ==>
            e.ids[i] == if tokens[i] in w2i then w2i[tokens[i]] else w2i[UNK])
  {
  }

  /**
   * Without `use_unk`: the substitution happens exactly when no token is known;
   * otherwise the prefix is the ids of the first `textLen` known tokens, in order.
   */
  lemma EncodeDropping(text: string, w2i: map<string, int>, padLen: nat, padInt: int)
    requires Encode(text, w2i, false, padLen, padInt).Success?
    ensures var tokens, e := Text.Split(text), Encode(text, w2i, false, padLen, padInt).value;
      var known := KnownTokens(tokens, w2i);
      && (e.wasEmpty <==> forall i :: 0 <= i < |tokens| ==> tokens[i] !in w2i)
      && (!e.wasEmpty ==> e.textLen == (if |known| < padLen then |known| else padLen))
      && (!e.wasEmpty ==> forall i :: 0 <= i < e.textLen ==> e.ids[i] == w2i[known[i]])
  {
    var tokens := Text.Split(text);
    KnownIdsEmpty(tokens, w2i);
    KnownIdsOfKnownTokens(tokens, w2i);
  }

  /** When every token is known, `use_unk` makes no difference. */
  lemma EncodeModesAgree(text: string, w2i: map<string, int>, padLen: nat, padInt: int)
    requires AllKnown(Text.Split(text), w2i)
    ensures Encode(text, w2i, true, padLen, padInt) == Encode(text, w2i, false, padLen, padInt)
  {
    KnownIdsAllKnown(Text.Split(text), w2i);
  }

  /** Every `word2id` that `build_vocab` returns holds the three reserved tokens. */
  lemma VocabHasReserved(ws: seq<string>, vocabSize: int, fillVocab: bool)
    requires VocabOf(ws, vocabSize, fillVocab).Success?
    ensures HasReserved(VocabOf(ws, vocabSize, fillVocab).value.word2id)
  {
    var kept := Kept(WordList(ws), vocabSize, fillVocab);
    assert VocabOf(ws, vocabSize, fillVocab).value.word2id == WordToId(kept);
  }
}
