/**
 * `build_vocab`: count the words of the cleaned turns of several corpora, put the
 * three reserved tokens at ids 0, 1 and 2, and number the remaining words from 3
 * on in descending order of frequency.
 */
module Vocab {
  import opened Wrappers
  import Text
  import opened Corpus

  const PAD: string := "<pad>"
  const UNK: string := "<unk>"
  const EMPTY: string := "<empty>"

  /** The reserved tokens; each one's position is its id. */
  const RESERVED: seq<string> := [PAD, UNK, EMPTY]

  // ---------------------------------------------------------------------------
  // Collecting and counting the words

  /** The cleaned turns of one corpus, three per conversation, in order. */
  function Turns(data: seq<Conversation>): seq<string>
  {
    if data == [] then []
    else
      var d := data[|data| - 1];
      Turns(data[..|data| - 1]) + [d.a, d.b, d.c]
  }

  /** `all_str_list`: the cleaned turns of every corpus, corpus after corpus. */
  function AllStrings(corpora: seq<seq<Conversation>>): seq<string>
  {
    if corpora == [] then []
    else AllStrings(corpora[..|corpora| - 1]) + Turns(corpora[|corpora| - 1])
  }

  /** Every token of every string, in the order the counting loop visits them. */
  function Words(strs: seq<string>): seq<string>
  {
    if strs == [] then []
    else Words(strs[..|strs| - 1]) + Text.Split(strs[|strs| - 1])
  }

  function Count(ws: seq<string>, w: string): nat
  {
    multiset(ws)[w]
  }

  /** `word_count` after the counting loop: every word seen, with its number of occurrences. */
  function CountMap(ws: seq<string>): (m: map<string, nat>)
    ensures forall w :: w in m <==> w in ws
    ensures forall w :: w in m ==> m[w] == Count(ws, w) >= 1
  {
    map w | w in ws :: Count(ws, w)
  }

  predicate NoDuplicates(s: seq<string>)
  {
    forall i, j :: 0 <= i < j < |s| ==> s[i] != s[j]
  }

  /**
   * The keys of `word_count` in the dictionary's insertion order: the words of `ws`,
   * each once, in order of first occurrence.
   */
  function Distinct(ws: seq<string>): (d: seq<string>)
    ensures NoDuplicates(d)
    ensures forall w :: w in d <==> w in ws
  {
    if ws == [] then []
    else
      var d, w := Distinct(ws[..|ws| - 1]), ws[|ws| - 1];
      assert ws == ws[..|ws| - 1] + [w];
      if w in d then d else d + [w]
  }

  lemma DistinctSnoc(ws: seq<string>, w: string)
    ensures Distinct(ws + [w]) == if w in Distinct(ws) then Distinct(ws) else Distinct(ws) + [w]
  {
    assert (ws + [w])[..|ws|] == ws;
  }

  lemma CountMapSnoc(ws: seq<string>, w: string)
    ensures CountMap(ws + [w]) == CountMap(ws)[w := Count(ws, w) + 1]
  {
    assert multiset(ws + [w]) == multiset(ws) + multiset{w};
  }

  /** One iteration of the counting loop, on `word_count` and its key order. */
  lemma CountStep(wordCount: map<string, nat>, keyOrder: seq<string>, seen: seq<string>, word: string)
    requires wordCount == CountMap(seen) && keyOrder == Distinct(seen)
    ensures word in wordCount ==> CountMap(seen + [word]) == wordCount[word := wordCount[word] + 1]
    ensures word !in wordCount ==> CountMap(seen + [word]) == wordCount[word := 1]
    ensures word in wordCount ==> Distinct(seen + [word]) == keyOrder
    ensures word !in wordCount ==> Distinct(seen + [word]) == keyOrder + [word]
  {
    CountMapSnoc(seen, word);
    DistinctSnoc(seen, word);
  }

  lemma {:induction false} NoDuplicatesCard(s: seq<string>)
    requires NoDuplicates(s)
    ensures |set x | x in s| == |s|
  {
    if s != [] {
      var t := s[..|s| - 1];
      assert s == t + [s[|s| - 1]];
      assert (set x | x in s) == (set x | x in t) + {s[|s| - 1]};
      NoDuplicatesCard(t);
    }
  }

  /** `len(word_count)` is the number of distinct words. */
  lemma {:induction false} CountMapSize(ws: seq<string>)
    ensures |CountMap(ws)| == |Distinct(ws)|
  {
    var d := Distinct(ws);
    assert CountMap(ws).Keys == set x | x in d;
    NoDuplicatesCard(d);
  }

  // ---------------------------------------------------------------------------
  // `sorted(word_count.items(), key=count, reverse=True)`: a stable descending sort

  predicate Descending(s: seq<string>, count: map<string, nat>)
    requires forall x :: x in s ==> x in count
  {
    forall i, j :: 0 <= i < j < |s| ==> count[s[i]] >= count[s[j]]
  }

  /** Put `w` after every element of `s` whose count is at least `w`'s. */
  function Insert(w: string, s: seq<string>, count: map<string, nat>): (r: seq<string>)
    requires w in count && forall x :: x in s ==> x in count
    ensures multiset(r) == multiset(s) + multiset{w}
    ensures forall x :: x in r <==> x == w || x in s
  {
    if s == [] then [w]
    else if count[s[0]] < count[w] then [w] + s
    else
      var r := [s[0]] + Insert(w, s[1..], count);
      assert s == [s[0]] + s[1..];
      r
  }

  /**
   * The word list of `build_vocab`: `keys` sorted by descending count. Python's sort
   * is stable also with `reverse=True`, so equal counts keep the order of `keys`.
   */
  function ByFrequency(keys: seq<string>, count: map<string, nat>): (r: seq<string>)
    requires forall x :: x in keys ==> x in count
    ensures multiset(r) == multiset(keys)
    ensures forall x :: x in r <==> x in keys
  {
    if keys == [] then []
    else
      var init, w := keys[..|keys| - 1], keys[|keys| - 1];
      assert keys == init + [w];
      Insert(w, ByFrequency(init, count), count)
  }

  lemma {:induction false} InsertDescending(w: string, s: seq<string>, count: map<string, nat>)
    requires w in count && forall x :: x in s ==> x in count
    requires Descending(s, count)
    ensures Descending(Insert(w, s, count), count)
  {
    if s != [] && count[s[0]] >= count[w] {
      assert Descending(s[1..], count);
      InsertDescending(w, s[1..], count);
      var r := Insert(w, s, count);
      assert r == [s[0]] + Insert(w, s[1..], count);
      forall j | 0 < j < |r|
        ensures count[r[0]] >= count[r[j]]
      {
        assert r[j] in Insert(w, s[1..], count);
        assert r[j] == w || r[j] in s[1..];
      }
    }
  }

  lemma {:induction false} InsertNoDuplicates(w: string, s: seq<string>, count: map<string, nat>)
    requires w in count && forall x :: x in s ==> x in count
    requires NoDuplicates(s) && w !in s
    ensures NoDuplicates(Insert(w, s, count))
  {
    if s != [] && count[s[0]] >= count[w] {
      assert NoDuplicates(s[1..]);
      assert s == [s[0]] + s[1..];
      InsertNoDuplicates(w, s[1..], count);
      assert s[0] !in Insert(w, s[1..], count);
    }
  }

  /** The sorted list is in descending order of count. */
  lemma {:induction false} ByFrequencyDescending(keys: seq<string>, count: map<string, nat>)
    requires forall x :: x in keys ==> x in count
    ensures Descending(ByFrequency(keys, count), count)
  {
    if keys != [] {
      var init, w := keys[..|keys| - 1], keys[|keys| - 1];
      assert keys == init + [w];
      ByFrequencyDescending(init, count);
      InsertDescending(w, ByFrequency(init, count), count);
    }
  }

  lemma {:induction false} ByFrequencyNoDuplicates(keys: seq<string>, count: map<string, nat>)
    requires forall x :: x in keys ==> x in count
    requires NoDuplicates(keys)
    ensures NoDuplicates(ByFrequency(keys, count))
  {
    if keys != [] {
      var init, w := keys[..|keys| - 1], keys[|keys| - 1];
      assert keys == init + [w];
      assert NoDuplicates(init);
      ByFrequencyNoDuplicates(init, count);
      InsertNoDuplicates(w, ByFrequency(init, count), count);
    }
  }

  /** The elements of `s` whose count is `c`, in their order in `s`. */
  function OfCount(s: seq<string>, count: map<string, nat>, c: nat): seq<string>
    requires forall x :: x in s ==> x in count
  {
    if s == [] then [] else (if count[s[0]] == c then [s[0]] else []) + OfCount(s[1..], count, c)
  }

  lemma {:induction false} OfCountAppend(s: seq<string>, t: seq<string>, count: map<string, nat>, c: nat)
    requires forall x :: x in s ==> x in count
    requires forall x :: x in t ==> x in count
    ensures OfCount(s + t, count, c) == OfCount(s, count, c) + OfCount(t, count, c)
  {
    if s == [] {
      assert s + t == t;
    } else {
      assert (s + t)[0] == s[0];
      assert (s + t)[1..] == s[1..] + t;
      OfCountAppend(s[1..], t, count, c);
    }
  }

  lemma {:induction false} OfCountNone(s: seq<string>, count: map<string, nat>, c: nat)
    requires forall x :: x in s ==> x in count
    requires forall x :: x in s ==> count[x] < c
    ensures OfCount(s, count, c) == []
  {
    if s != [] {
      OfCountNone(s[1..], count, c);
    }
  }

  lemma {:induction false} InsertOfCount(w: string, s: seq<string>, count: map<string, nat>, c: nat)
    requires w in count && forall x :: x in s ==> x in count
    requires Descending(s, count)
    ensures OfCount(Insert(w, s, count), count, c)
            == OfCount(s, count, c) + (if count[w] == c then [w] else [])
  {
    if s == [] {
    } else if count[s[0]] < count[w] {
      assert Insert(w, s, count) == [w] + s;
      if count[w] == c {
        OfCountNone(s, count, c);
      }
    } else {
      assert Descending(s[1..], count);
      InsertOfCount(w, s[1..], count, c);
    }
  }

  /** Stability: among words of equal count, the sorted list keeps the order of `keys`. */
  lemma {:induction false} ByFrequencyStable(keys: seq<string>, count: map<string, nat>, c: nat)
    requires forall x :: x in keys ==> x in count
    ensures OfCount(ByFrequency(keys, count), count, c) == OfCount(keys, count, c)
  {
    if keys != [] {
      var init, w := keys[..|keys| - 1], keys[|keys| - 1];
      assert keys == init + [w];
      ByFrequencyStable(init, count, c);
      ByFrequencyDescending(init, count);
      InsertOfCount(w, ByFrequency(init, count), count, c);
      OfCountAppend(init, [w], count, c);
    }
  }

  // ---------------------------------------------------------------------------
  // Numbering the words

  /** `word_list[:k]` with Python's slice semantics: a negative `k` drops `-k` elements from the end. */
  function PyPrefix<T>(s: seq<T>, k: int): (r: seq<T>)
    ensures |r| == if 0 <= k then (if k <= |s| then k else |s|)
                   else (if 0 <= |s| + k then |s| + k else 0)
    ensures r == s[..|r|]
  {
    if 0 <= k then (if k <= |s| then s[..k] else s)
    else if 0 <= |s| + k then s[..|s| + k]
    else []
  }

  /** The words that receive ids from 3 on. */
  function Kept(wordList: seq<string>, vocabSize: int, fillVocab: bool): seq<string>
  {
    if fillVocab then wordList else PyPrefix(wordList, vocabSize - |RESERVED|)
  }

  /** `word2id` once the words of `kept` have been numbered; a later entry overwrites an earlier one. */
  function WordToId(kept: seq<string>): (m: map<string, int>)
    ensures m.Keys == {PAD, UNK, EMPTY} + set w | w in kept
  {
    if kept == [] then map[PAD := 0, UNK := 1, EMPTY := 2]
    else
      var init, w := kept[..|kept| - 1], kept[|kept| - 1];
      assert kept == init + [w];
      WordToId(init)[w := |RESERVED| + |kept| - 1]
  }

  /** `id2word` once the words of `kept` have been numbered: ids 0 to 2 reserved, then one per kept word. */
  function IdToWord(kept: seq<string>): (m: map<int, string>)
    ensures forall i :: i in m <==> 0 <= i < |RESERVED| + |kept|
    ensures |m| == |RESERVED| + |kept|
  {
    if kept == [] then map[0 := PAD, 1 := UNK, 2 := EMPTY]
    else
      var init, w := kept[..|kept| - 1], kept[|kept| - 1];
      IdToWord(init)[|RESERVED| + |kept| - 1 := w]
  }

  /** The words of `id2word`: the reserved tokens at ids 0 to 2, then `kept` in order. */
  lemma {:induction false} IdToWordAt(kept: seq<string>)
    ensures forall i :: 0 <= i < |RESERVED| ==> IdToWord(kept)[i] == RESERVED[i]
    ensures forall i :: |RESERVED| <= i < |RESERVED| + |kept| ==> IdToWord(kept)[i] == kept[i - |RESERVED|]
  {
    if kept != [] {
      var init := kept[..|kept| - 1];
      IdToWordAt(init);
      assert forall i :: 0 <= i < |init| ==> init[i] == kept[i];
    }
  }

  /** Numbering one more word. */
  lemma NumberSnoc(kept: seq<string>, w: string)
    ensures WordToId(kept + [w]) == WordToId(kept)[w := |RESERVED| + |kept|]
    ensures IdToWord(kept + [w]) == IdToWord(kept)[|RESERVED| + |kept| := w]
  {
    var k := kept + [w];
    assert k[..|k| - 1] == kept && k[|k| - 1] == w;
    WordToIdSnoc(k);
    IdToWordSnoc(k);
  }

  lemma WordToIdSnoc(k: seq<string>)
    requires k != []
    ensures WordToId(k) == WordToId(k[..|k| - 1])[k[|k| - 1] := |RESERVED| + |k| - 1]
  {
  }

  lemma IdToWordSnoc(k: seq<string>)
    requires k != []
    ensures IdToWord(k) == IdToWord(k[..|k| - 1])[|RESERVED| + |k| - 1 := k[|k| - 1]]
  {
  }

  /**
   * Ids in `word2id`: a kept word gets 3 plus its position; a reserved token keeps its
   * own id unless the same string is among the kept words.
   */
  lemma {:induction false} WordToIdAt(kept: seq<string>)
    requires NoDuplicates(kept)
    ensures forall j :: 0 <= j < |kept| ==> WordToId(kept)[kept[j]] == |RESERVED| + j
    ensures forall r :: 0 <= r < |RESERVED| && RESERVED[r] !in kept ==> WordToId(kept)[RESERVED[r]] == r
  {
    if kept != [] {
      var init, w := kept[..|kept| - 1], kept[|kept| - 1];
      assert kept == init + [w];
      assert NoDuplicates(init);
      WordToIdAt(init);
      forall j | 0 <= j < |kept| - 1
        ensures WordToId(kept)[kept[j]] == |RESERVED| + j
      {
        assert kept[j] == init[j] != w;
      }
    }
  }

  /** Every key of `word2id` names its id in `id2word`. */
  lemma {:induction false} WordToIdInverse(kept: seq<string>)
    requires NoDuplicates(kept)
    requires forall r :: 0 <= r < |RESERVED| ==> RESERVED[r] !in kept
    ensures var w2i, i2w := WordToId(kept), IdToWord(kept);
      forall w :: w in w2i ==> w2i[w] in i2w && i2w[w2i[w]] == w
  {
    var w2i, i2w := WordToId(kept), IdToWord(kept);
    WordToIdAt(kept);
    IdToWordAt(kept);
    forall w | w in w2i
      ensures w2i[w] in i2w && i2w[w2i[w]] == w
    {
      if w in kept {
        var j :| 0 <= j < |kept| && kept[j] == w;
      } else if w == PAD {
        assert RESERVED[0] == w;
      } else if w == UNK {
        assert RESERVED[1] == w;
      } else {
        assert RESERVED[2] == w;
      }
    }
  }

  /** Every id of `id2word` is the id `word2id` gives its word. */
  lemma {:induction false} IdToWordInverse(kept: seq<string>)
    requires NoDuplicates(kept)
    requires forall r :: 0 <= r < |RESERVED| ==> RESERVED[r] !in kept
    ensures var w2i, i2w := WordToId(kept), IdToWord(kept);
      forall i :: i in i2w ==> i2w[i] in w2i && w2i[i2w[i]] == i
  {
    var w2i, i2w := WordToId(kept), IdToWord(kept);
    WordToIdAt(kept);
    IdToWordAt(kept);
    forall i | i in i2w
      ensures i2w[i] in w2i && w2i[i2w[i]] == i
    {
      if i >= |RESERVED| {
        assert i2w[i] == kept[i - |RESERVED|];
      } else {
        assert i2w[i] == RESERVED[i];
      }
    }
  }

  /** Both maps have one entry per reserved token and one per kept word. */
  lemma {:induction false} NumberedSize(kept: seq<string>)
    requires NoDuplicates(kept)
    requires forall r :: 0 <= r < |RESERVED| ==> RESERVED[r] !in kept
    ensures |WordToId(kept)| == |IdToWord(kept)| == |RESERVED| + |kept|
  {
    ReservedCard();
    NoDuplicatesCard(kept);
    var ks := set w | w in kept;
    assert PAD == RESERVED[0] && UNK == RESERVED[1] && EMPTY == RESERVED[2];
    assert {PAD, UNK, EMPTY} * ks == {};
    assert WordToId(kept).Keys == {PAD, UNK, EMPTY} + ks;
  }

  /**
   * With distinct kept words none of which is reserved, `word2id` and `id2word` are
   * mutual inverses over ids 0 to 2 + |kept|.
   */
  lemma Inverse(kept: seq<string>)
    requires NoDuplicates(kept)
    requires forall r :: 0 <= r < |RESERVED| ==> RESERVED[r] !in kept
    ensures var w2i, i2w := WordToId(kept), IdToWord(kept);
      (forall w :: w in w2i ==> w2i[w] in i2w && i2w[w2i[w]] == w)
      && (forall i :: i in i2w ==> i2w[i] in w2i && w2i[i2w[i]] == i)
      && |w2i| == |i2w| == |RESERVED| + |kept|
  {
    WordToIdInverse(kept);
    IdToWordInverse(kept);
    NumberedSize(kept);
  }

  lemma ReservedIdsKept(kept: seq<string>)
    requires NoDuplicates(kept)
    requires forall r :: 0 <= r < |RESERVED| ==> RESERVED[r] !in kept
    ensures WordToId(kept)[PAD] == 0 && WordToId(kept)[UNK] == 1 && WordToId(kept)[EMPTY] == 2
  {
    WordToIdAt(kept);
    assert PAD == RESERVED[0] && UNK == RESERVED[1] && EMPTY == RESERVED[2];
  }

  lemma ReservedCard()
    ensures |{PAD, UNK, EMPTY}| == |RESERVED|
  {
    assert PAD[1] != UNK[1] && PAD[1] != EMPTY[1] && UNK[1] != EMPTY[1];
  }

  // ---------------------------------------------------------------------------
  // The whole builder

  datatype VocabError = VocabLessThanRequested

  /** What `build_vocab` returns: `word2id`, `id2word` and the vocabulary size. */
  datatype Vocabulary = Vocabulary(word2id: map<string, int>, id2word: map<int, string>, size: int)

  /** The sorted word list for the words of `ws`. */
  function WordList(ws: seq<string>): seq<string>
  {
    ByFrequency(Distinct(ws), CountMap(ws))
  }

  /** The maps once `kept` is numbered, and the size returned in each mode. */
  function Numbered(kept: seq<string>, fillVocab: bool): Vocabulary
  {
    var w2i, i2w := WordToId(kept), IdToWord(kept);
    Vocabulary(w2i, i2w, if fillVocab then |i2w| else |w2i|)
  }

  /** `build_vocab` for the words `ws` its counting loop visits. */
  function VocabOf(ws: seq<string>, vocabSize: int, fillVocab: bool): Result<Vocabulary, VocabError>
  {
    if |CountMap(ws)| < vocabSize then Failure(VocabLessThanRequested)
    else Success(Numbered(Kept(WordList(ws), vocabSize, fillVocab), fillVocab))
  }

  /** The result of `build_vocab(corpora, vocabSize, fillVocab)`. */
  function VocabSpec(corpora: seq<seq<Conversation>>, vocabSize: int, fillVocab: bool): Result<Vocabulary, VocabError>
  {
    VocabOf(Words(AllStrings(corpora)), vocabSize, fillVocab)
  }

  /** The builder raises exactly when there are fewer distinct words than requested. */
  lemma VocabFails(ws: seq<string>, vocabSize: int, fillVocab: bool)
    ensures VocabOf(ws, vocabSize, fillVocab).Failure? <==> |Distinct(ws)| < vocabSize
  {
    CountMapSize(ws);
  }

  lemma {:induction false} PrefixFacts(wl: seq<string>, kept: seq<string>, count: map<string, nat>)
    requires forall x :: x in wl ==> x in count
    requires |kept| <= |wl| && kept == wl[..|kept|]
    requires NoDuplicates(wl) && Descending(wl, count)
    ensures forall x :: x in kept ==> x in wl
    ensures NoDuplicates(kept) && Descending(kept, count)
  {
    forall x | x in kept
      ensures x in wl
    {
      var i :| 0 <= i < |kept| && kept[i] == x;
      assert wl[i] == x;
    }
    forall i, j | 0 <= i < j < |kept|
      ensures kept[i] != kept[j] && count[kept[i]] >= count[kept[j]]
    {
      assert kept[i] == wl[i] && kept[j] == wl[j];
    }
  }

  /** What the numbered words are: distinct corpus words, a prefix of the sorted list, in descending order. */
  lemma {:induction false} KeptFacts(ws: seq<string>, vocabSize: int, fillVocab: bool)
    ensures var kept, wl := Kept(WordList(ws), vocabSize, fillVocab), WordList(ws);
      && |kept| <= |wl| && kept == wl[..|kept|]
      && NoDuplicates(kept)
      && (forall x :: x in kept ==> x in ws)
      && (forall i, j :: 0 <= i < j < |kept| ==> Count(ws, kept[i]) >= Count(ws, kept[j]))
      && (fillVocab ==> |kept| == |Distinct(ws)|)
      && (!fillVocab && |RESERVED| <= vocabSize <= |Distinct(ws)| ==> |kept| == vocabSize - |RESERVED|)
  {
    var count := CountMap(ws);
    var wl := WordList(ws);
    var kept := Kept(wl, vocabSize, fillVocab);
    ByFrequencyDescending(Distinct(ws), count);
    ByFrequencyNoDuplicates(Distinct(ws), count);
    assert |wl| == |Distinct(ws)| by {
      calc {
        |wl|;
        |multiset(wl)|;
        |multiset(Distinct(ws))|;
        |Distinct(ws)|;
      }
    }
    PrefixFacts(wl, kept, count);
  }

  lemma {:induction false} NumberedWordsFrom(kept: seq<string>, ws: seq<string>)
    requires forall x :: x in kept ==> x in ws
    ensures var i2w := IdToWord(kept);
      forall i :: |RESERVED| <= i < |i2w| ==> i2w[i] in ws
  {
    var i2w := IdToWord(kept);
    IdToWordAt(kept);
    forall i | |RESERVED| <= i < |i2w|
      ensures i2w[i] in ws
    {
      assert i2w[i] == kept[i - |RESERVED|];
    }
  }

  lemma {:induction false} NumberedDescending(kept: seq<string>, ws: seq<string>)
    requires forall i, j :: 0 <= i < j < |kept| ==> Count(ws, kept[i]) >= Count(ws, kept[j])
    ensures var i2w := IdToWord(kept);
      forall i, j :: |RESERVED| <= i < j < |i2w| ==> Count(ws, i2w[i]) >= Count(ws, i2w[j])
  {
    var i2w := IdToWord(kept);
    IdToWordAt(kept);
    forall i, j | |RESERVED| <= i < j < |i2w|
      ensures Count(ws, i2w[i]) >= Count(ws, i2w[j])
    {
      assert i2w[i] == kept[i - |RESERVED|];
      assert i2w[j] == kept[j - |RESERVED|];
    }
  }

  lemma NumberedIds(kept: seq<string>, ws: seq<string>)
    requires forall x :: x in kept ==> x in ws
    requires forall i, j :: 0 <= i < j < |kept| ==> Count(ws, kept[i]) >= Count(ws, kept[j])
    ensures var i2w := IdToWord(kept);
      && (forall i :: i in i2w <==> 0 <= i < |i2w|)
      && i2w[0] == PAD && i2w[1] == UNK && i2w[2] == EMPTY
      && (forall i :: |RESERVED| <= i < |i2w| ==> i2w[i] in ws)
      && (forall i, j :: |RESERVED| <= i < j < |i2w| ==> Count(ws, i2w[i]) >= Count(ws, i2w[j]))
  {
    var i2w := IdToWord(kept);
    IdToWordAt(kept);
    assert i2w[0] == RESERVED[0] && i2w[1] == RESERVED[1] && i2w[2] == RESERVED[2];
    NumberedWordsFrom(kept, ws);
    NumberedDescending(kept, ws);
  }

  /**
   * A successful build numbers ids contiguously from 0: ids 0 to 2 are the reserved
   * tokens and ids from 3 on are corpus words in descending order of frequency.
   */
  lemma {:induction false} VocabIds(ws: seq<string>, vocabSize: int, fillVocab: bool)
    requires VocabOf(ws, vocabSize, fillVocab).Success?
    ensures var v := VocabOf(ws, vocabSize, fillVocab).value;
      && (forall i :: i in v.id2word <==> 0 <= i < |v.id2word|)
      && v.id2word[0] == PAD && v.id2word[1] == UNK && v.id2word[2] == EMPTY
      && (forall i :: |RESERVED| <= i < |v.id2word| ==> v.id2word[i] in ws)
      && (forall i, j :: |RESERVED| <= i < j < |v.id2word| ==>
            Count(ws, v.id2word[i]) >= Count(ws, v.id2word[j]))
  {
    var kept := Kept(WordList(ws), vocabSize, fillVocab);
    assert VocabOf(ws, vocabSize, fillVocab).value.id2word == IdToWord(kept);
    KeptFacts(ws, vocabSize, fillVocab);
    NumberedIds(kept, ws);
  }

  /** No word is spelled like a reserved token. */
  predicate NoReservedWord(ws: seq<string>)
  {
    forall r :: 0 <= r < |RESERVED| ==> RESERVED[r] !in ws
  }

  /**
   * When no corpus word is spelled like a reserved token, the reserved tokens have
   * ids 0, 1 and 2 in `word2id` and the two maps are mutual inverses.
   */
  lemma {:induction false} VocabInverse(ws: seq<string>, vocabSize: int, fillVocab: bool)
    requires VocabOf(ws, vocabSize, fillVocab).Success?
    requires NoReservedWord(ws)
    ensures var v := VocabOf(ws, vocabSize, fillVocab).value;
      && v.word2id[PAD] == 0 && v.word2id[UNK] == 1 && v.word2id[EMPTY] == 2
      && (forall w :: w in v.word2id ==> v.word2id[w] in v.id2word && v.id2word[v.word2id[w]] == w)
      && (forall i :: i in v.id2word ==> v.id2word[i] in v.word2id && v.word2id[v.id2word[i]] == i)
  {
    var kept := Kept(WordList(ws), vocabSize, fillVocab);
    assert VocabOf(ws, vocabSize, fillVocab).value == Numbered(kept, fillVocab);
    KeptFacts(ws, vocabSize, fillVocab);
    assert forall r :: 0 <= r < |RESERVED| ==> RESERVED[r] !in kept;
    ReservedIdsKept(kept);
    Inverse(kept);
  }

  /**
   * The returned size: in fill mode the number of ids, three plus every distinct
   * word; otherwise, when no word is spelled like a reserved token and at least three
   * ids were asked for, exactly `vocabSize`.
   */
  lemma {:induction false} VocabSize(ws: seq<string>, vocabSize: int, fillVocab: bool)
    requires VocabOf(ws, vocabSize, fillVocab).Success?
    ensures var v := VocabOf(ws, vocabSize, fillVocab).value;
      && (fillVocab ==> v.size == |v.id2word| == |RESERVED| + |Distinct(ws)|)
      && (!fillVocab && NoReservedWord(ws) && vocabSize >= |RESERVED| ==> v.size == vocabSize)
  {
    var kept := Kept(WordList(ws), vocabSize, fillVocab);
    KeptFacts(ws, vocabSize, fillVocab);
    CountMapSize(ws);
    if !fillVocab && NoReservedWord(ws) && vocabSize >= |RESERVED| {
      assert forall r :: 0 <= r < |RESERVED| ==> RESERVED[r] !in kept;
      Inverse(kept);
    }
  }

  lemma {:induction false} PrefixLeavesLessFrequent(wl: seq<string>, kept: seq<string>, count: map<string, nat>, w: string)
    requires forall x :: x in wl ==> x in count
    requires |kept| <= |wl| && kept == wl[..|kept|]
    requires Descending(wl, count)
    requires w in wl && w !in kept
    ensures forall i :: |RESERVED| <= i < |IdToWord(kept)| ==> IdToWord(kept)[i] in count && count[IdToWord(kept)[i]] >= count[w]
  {
    var i2w := IdToWord(kept);
    IdToWordAt(kept);
    var p :| 0 <= p < |wl| && wl[p] == w;
    assert forall q :: 0 <= q < |kept| ==> wl[q] == kept[q] != w;
    assert p >= |kept|;
    forall i | |RESERVED| <= i < |i2w|
      ensures i2w[i] in count && count[i2w[i]] >= count[w]
    {
      assert i2w[i] == kept[i - |RESERVED|] == wl[i - |RESERVED|];
    }
  }

  lemma {:induction false} UnnumberedBelow(ws: seq<string>, vocabSize: int, fillVocab: bool, w: string)
    requires w in ws && w !in Kept(WordList(ws), vocabSize, fillVocab)
    ensures var i2w := IdToWord(Kept(WordList(ws), vocabSize, fillVocab));
      forall i :: |RESERVED| <= i < |i2w| ==> i2w[i] in CountMap(ws) && CountMap(ws)[i2w[i]] >= CountMap(ws)[w]
  {
    var count, wl := CountMap(ws), WordList(ws);
    var kept := Kept(wl, vocabSize, fillVocab);
    KeptFacts(ws, vocabSize, fillVocab);
    ByFrequencyDescending(Distinct(ws), count);
    PrefixLeavesLessFrequent(wl, kept, count, w);
  }

  lemma {:induction false} UnnumberedLessFrequent(ws: seq<string>, vocabSize: int, fillVocab: bool, w: string)
    requires w in ws && w !in Kept(WordList(ws), vocabSize, fillVocab)
    ensures var i2w := IdToWord(Kept(WordList(ws), vocabSize, fillVocab));
      forall i :: |RESERVED| <= i < |i2w| ==> Count(ws, i2w[i]) >= Count(ws, w)
  {
    var kept := Kept(WordList(ws), vocabSize, fillVocab);
    var i2w := IdToWord(kept);
    UnnumberedBelow(ws, vocabSize, fillVocab, w);
    KeptFacts(ws, vocabSize, fillVocab);
    NumberedIds(kept, ws);
    forall i | |RESERVED| <= i < |i2w|
      ensures Count(ws, i2w[i]) >= Count(ws, w)
    {
      assert CountMap(ws)[i2w[i]] == Count(ws, i2w[i]);
    }
  }

  /**
   * Fill mode numbers every word; otherwise a word left without an id is at most as
   * frequent as every word that got one.
   */
  lemma {:induction false} VocabKeepsMostFrequent(ws: seq<string>, vocabSize: int, fillVocab: bool, w: string)
    requires VocabOf(ws, vocabSize, fillVocab).Success?
    requires w in ws
    ensures var v := VocabOf(ws, vocabSize, fillVocab).value;
      && (fillVocab ==> w in v.word2id)
      && (w !in v.word2id ==> forall i :: |RESERVED| <= i < |v.id2word| ==> Count(ws, v.id2word[i]) >= Count(ws, w))
  {
    var kept := Kept(WordList(ws), vocabSize, fillVocab);
    var v := VocabOf(ws, vocabSize, fillVocab).value;
    assert v.word2id == WordToId(kept) && v.id2word == IdToWord(kept);
    if fillVocab {
      assert w in WordList(ws);
    }
    if w !in v.word2id {
      assert w !in kept;
      UnnumberedLessFrequent(ws, vocabSize, fillVocab, w);
    }
  }

  // ---------------------------------------------------------------------------
  // The builder as the source runs it

  /** The first loop of `build_vocab`: gather the cleaned turns of every corpus into `all_str_list`. */
  method CollectStrings(corpora: seq<seq<Conversation>>) returns (allStrList: seq<string>)
    ensures allStrList == AllStrings(corpora)
  {
    allStrList := [];
    for i := 0 to |corpora|
      invariant allStrList == AllStrings(corpora[..i])
    {
      var dataList := corpora[i];
      for j := 0 to |dataList|
        invariant allStrList == AllStrings(corpora[..i]) + Turns(dataList[..j])
      {
        var data := dataList[j];
        assert dataList[..j + 1][..j] == dataList[..j];
        allStrList := allStrList + [data.a];
        allStrList := allStrList + [data.b];
        allStrList := allStrList + [data.c];
      }
      assert dataList[..|dataList|] == dataList;
      assert corpora[..i + 1][..i] == corpora[..i];
    }
    assert corpora[..|corpora|] == corpora;
  }

  /** The inner counting loop: add the tokens of one string to `word_count`. */
  method CountTokens(wordCount0: map<string, nat>, keyOrder0: seq<string>, tokens: seq<string>, ghost before: seq<string>)
    returns (wordCount: map<string, nat>, keyOrder: seq<string>)
    requires wordCount0 == CountMap(before) && keyOrder0 == Distinct(before)
    ensures wordCount == CountMap(before + tokens) && keyOrder == Distinct(before + tokens)
  {
    wordCount, keyOrder := wordCount0, keyOrder0;
    ghost var seen := before;
    PrefixSnoc(before, tokens, 0);
    for j := 0 to |tokens|
      invariant seen == before + tokens[..j]
      invariant wordCount == CountMap(seen) && keyOrder == Distinct(seen)
    {
      var word := tokens[j];
      wordCount, keyOrder := CountToken(wordCount, keyOrder, word, seen);
      PrefixSnoc(before, tokens, j);
      seen := seen + [word];
    }
    PrefixSnoc(before, tokens, |tokens|);
  }

  /** `before + tokens[..j]` grows by one token per step. */
  lemma PrefixSnoc(before: seq<string>, tokens: seq<string>, j: nat)
    requires j <= |tokens|
    ensures j == 0 ==> before + tokens[..j] == before
    ensures j == |tokens| ==> before + tokens[..j] == before + tokens
    ensures j < |tokens| ==> (before + tokens[..j]) + [tokens[j]] == before + tokens[..j + 1]
  {
    if j < |tokens| {
      assert tokens[..j + 1] == tokens[..j] + [tokens[j]];
    } else if j == |tokens| {
      assert tokens[..j] == tokens;
    }
  }

  /** One iteration: count `word`, adding it to the key order when it is new. */
  method CountToken(wordCount0: map<string, nat>, keyOrder0: seq<string>, word: string, ghost seen: seq<string>)
    returns (wordCount: map<string, nat>, keyOrder: seq<string>)
    requires wordCount0 == CountMap(seen) && keyOrder0 == Distinct(seen)
    ensures wordCount == CountMap(seen + [word]) && keyOrder == Distinct(seen + [word])
  {
    wordCount, keyOrder := wordCount0, keyOrder0;
    CountStep(wordCount, keyOrder, seen, word);
    if word in wordCount {
      wordCount := wordCount[word := wordCount[word] + 1];
    } else {
      wordCount := wordCount[word := 1];
      keyOrder := keyOrder + [word];
    }
  }

  /**
   * The counting loop of `build_vocab`: `word_count` maps every token of every string
   * to its number of occurrences; `keyOrder` is the dictionary's key order.
   */
  method CountWords(allStrList: seq<string>) returns (wordCount: map<string, nat>, keyOrder: seq<string>)
    ensures wordCount == CountMap(Words(allStrList))
    ensures keyOrder == Distinct(Words(allStrList))
  {
    wordCount, keyOrder := map[], [];
    for i := 0 to |allStrList|
      invariant wordCount == CountMap(Words(allStrList[..i]))
      invariant keyOrder == Distinct(Words(allStrList[..i]))
    {
      assert allStrList[..i + 1][..i] == allStrList[..i];
      wordCount, keyOrder := CountTokens(wordCount, keyOrder, Text.Split(allStrList[i]), Words(allStrList[..i]));
    }
    assert allStrList[..|allStrList|] == allStrList;
  }

  /**
   * The numbering part of `build_vocab`: the reserved tokens at ids 0 to 2, the word
   * list cut to `vocabSize - 3` words unless in fill mode, then one id per word.
   */
  method NumberWords(wordList0: seq<string>, vocabSize: int, fillVocab: bool)
    returns (word2id: map<string, int>, id2word: map<int, string>)
    ensures word2id == WordToId(Kept(wordList0, vocabSize, fillVocab))
    ensures id2word == IdToWord(Kept(wordList0, vocabSize, fillVocab))
  {
    var wordList := wordList0;
    word2id, id2word := map[], map[];
    word2id := word2id[PAD := 0];
    id2word := id2word[0 := PAD];
    word2id := word2id[UNK := 1];
    id2word := id2word[1 := UNK];
    word2id := word2id[EMPTY := 2];
    id2word := id2word[2 := EMPTY];
    ReservedCard();
    assert word2id.Keys == {PAD, UNK, EMPTY};
    var n := |word2id|;
    if !fillVocab {
      wordList := PyPrefix(wordList, vocabSize - n);
    }
    assert wordList == Kept(wordList0, vocabSize, fillVocab);
    assert word2id == WordToId([]) && id2word == IdToWord([]);
    word2id, id2word := AddWords(word2id, id2word, n, wordList);
  }

  /** The loop `for word in word_list`: the next id is `n`, one past the last id given. */
  method AddWords(word2id0: map<string, int>, id2word0: map<int, string>, n0: int, wordList: seq<string>)
    returns (word2id: map<string, int>, id2word: map<int, string>)
    requires word2id0 == WordToId([]) && id2word0 == IdToWord([]) && n0 == |RESERVED|
    ensures word2id == WordToId(wordList) && id2word == IdToWord(wordList)
  {
    word2id, id2word := word2id0, id2word0;
    var n := n0;
    for k := 0 to |wordList|
      invariant word2id == WordToId(wordList[..k])
      invariant id2word == IdToWord(wordList[..k])
      invariant n == |RESERVED| + k
    {
      var word := wordList[k];
      assert wordList[..k + 1] == wordList[..k] + [word];
      NumberSnoc(wordList[..k], word);
      word2id := word2id[word := n];
      id2word := id2word[n := word];
      n := n + 1;
    }
    assert wordList[..|wordList|] == wordList;
  }

  /** `build_vocab(corpora, vocabSize, fillVocab)`. */
  method BuildVocab(corpora: seq<seq<Conversation>>, vocabSize: int, fillVocab: bool)
    returns (r: Result<Vocabulary, VocabError>)
    ensures r == VocabSpec(corpora, vocabSize, fillVocab)
  {
    var allStrList := CollectStrings(corpora);
    var wordCount, keyOrder := CountWords(allStrList);
    var wordList := ByFrequency(keyOrder, wordCount);
    if |wordCount| < vocabSize {
      return Failure(VocabLessThanRequested);
    }
    var word2id, id2word := NumberWords(wordList, vocabSize, fillVocab);
    if fillVocab {
      return Success(Vocabulary(word2id, id2word, |id2word|));
    }
    return Success(Vocabulary(word2id, id2word, |word2id|));
  }
}
