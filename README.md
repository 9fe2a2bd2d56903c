# A verified model of the data and orchestration core of `trainer_hrlce.py`

`trainer_hrlce.py` trains an ensemble of emotion classifiers on three-turn conversations.
The classes are `happy`, `angry`, `sad` and `others`. Around the neural network sits a core of
integer, sequence and dictionary code, and this project models that core in Dafny and proves
what it promises:

- **Text** (`text.dfy`): Python's `str.split()` with no separator, over Python's whitespace
  set, and `str.strip()`.
- **Corpus** (`corpus.dfy`): one conversation row, with its three cleaned and three raw turns.
- **Vocab** (`vocab.dfy`): `build_vocab`.
  - The counting loop over all cleaned turns, as a map plus the dictionary's key order.
  - The stable sort by descending count.
  - The Python slice `word_list[:vocab_size - 3]`, negative bounds included.
  - The numbering loop, and the exception when there are too few distinct words.
  - The loops are imperative methods, each proved equal to a specification function.
- **Encoding** (`encoding.dfy`): `sent_to_ids` as a value.
  - The two lookup modes, the `<empty>` substitution, the truncation and the padding.
  - The `KeyError`s a map without the reserved tokens would raise.
- **Datasets** (`datasets.dfy`): `TrainDataSet` and `TestDataSet` as classes.
  - Their list fields and the `num_empty_lines` counter are updated in place by `SentToIds`
    and by the `read_data` loop.
  - The training set also derives the three label lists.
- **Labels** (`labels.dfy`): the label triple and `to_categorical`, which writes into a
  two-dimensional array in place.
- **Decoding** (`decoding.dfy`): `glove_tokenizer`, the round trip `sent_to_ids` then
  `glove_tokenizer`, and the same round trip for a vocabulary `build_vocab` returns.
- **FoldTraining** (`training.dfy`): the epoch and retry control of `one_fold`.
  - The divergence guard and the early-stopping decision.
  - The cache of best-epoch predictions, and the retry loop after a divergence.
  - The loop over the folds.
  - The network, the loss and the monitor are function parameters.
- **Voting** (`voting.dfy`): `find_majority`, and the column-wise vote over the fold results.
- **Submission** (`submission.dfy`): the format of the lines of the submission file.

### Where the code behaves differently from what one would expect

The model follows the code in each case.

- **Cache after one epoch.** One would expect the prediction cache never to be empty once an
  epoch has completed. In the code the cache takes the predictions of the *previous* epoch,
  so a best first epoch caches `None`. When the monitor then stops at the second epoch, the
  fold returns no predictions (`FoldTraining.EmptyCacheAfterEarlyStop`).
- **Which epoch is cached.** One would expect a best epoch to cache its own outputs. The code
  caches the inference results of the epoch before (`FoldTraining.EpochTiming`).
- **Restart after divergence.** One would expect a divergence restart to discard all run
  state. The two cached prediction vectors are not reset, but `pred_list_test` and
  `final_pred_list_test` are, and the monitor is new. What happens next depends on the
  monitor:
  - If it never marks an epoch best before it stops, the diverged attempt's predictions
    become the fold's result (`FoldTraining.StaleCacheAfterRestart`).
  - If it marks its first value best, as a "lowest value so far" monitor does, epoch 0 of
    the new attempt empties both caches. The attempt then ends as it would from an empty
    cache (`FoldTraining.FirstBestForgetsStaleCache`).
  - In every case, the dev and test caches come from one and the same epoch
    (`FoldTraining.FoldResultPaired`).
- **Tie-break.** One might read the tie-break as "first value seen". The strict `>` of the
  running maximum actually picks the value whose count *first reaches* the final maximum:
  `[1, 0, 0, 1]` votes `0` (`Voting.TieGoesToFirstToReach`).
- **`text_len` bound.** `text_len >= 1` holds only for a positive padding length. With
  `sent_pad_len == 0` the true length is 0.
- **Reserved spellings.** A corpus word spelled `<pad>`, `<unk>` or `<empty>` overwrites
  that reserved entry of `word2id`. The inverse-map properties therefore require that no
  corpus word has such a spelling (`Vocab.NoReservedWord`).
- **Small `vocab_size`.** For `vocab_size < 3` the slice bound is negative, and Python drops
  words from the end of the list (`Vocab.PyPrefix`).
- **A literal `<pad>` token.** The round trip through `glove_tokenizer` also requires that the
  text does not contain the token `<pad>`. The id of that token is 0, so the tokenizer drops
  it.

## Model

| member | source | states |
|---|---|---|
| Text.Split | trainer_hrlce.py:153 | every piece `str.split()` returns is a non-empty run of non-whitespace characters |
| Text.SplitKeepsNonSpace | trainer_hrlce.py:225 | the tokens, glued together, are exactly the non-whitespace characters of the text, in order |
| Text.SplitJoin | trainer_hrlce.py:225 | splitting a single-space join of tokens gives the tokens back |
| Text.SplitMaximal | trainer_hrlce.py:153 | each token occurs in the text with whitespace or an end of the text right before and right after it, so `str.split()` breaks only at whitespace |
| Text.StripLeft | trainer_hrlce.py:761 | `lstrip` drops a prefix made only of whitespace, and what remains does not start with whitespace |
| Text.StripRight | trainer_hrlce.py:763 | `rstrip` drops a suffix made only of whitespace, and what remains does not end with whitespace |
| Text.StripSlice | trainer_hrlce.py:761 | `strip()` is a slice of the line with only whitespace outside it and no whitespace at its own ends |
| Text.StripIdempotent | trainer_hrlce.py:761 | stripping twice is stripping once |
| Labels.EmoIndex | trainer_hrlce.py:132 | `EMOS_DIC` maps exactly the four class names, each to its position in `EMOS` |
| Labels.Derive | trainer_hrlce.py:265-271 | the triple is consistent: flag 1 iff class `others` iff the vector is all zero, otherwise one 1 at the class index, and flag plus vector sum is 1 |
| Labels.ToCategorical | trainer_hrlce.py:366-370 | a newly allocated `len(vec)` by `NUM_EMO` matrix with a single 1 per row at the column its value names (negative values count from the end); it fails exactly when some value is out of range, reporting the first one |
| Vocab.CountMap | trainer_hrlce.py:149-157 | `word_count` holds exactly the words visited, each with its number of occurrences |
| Vocab.Distinct | trainer_hrlce.py:149-157 | the key order of `word_count` lists every visited word once |
| Vocab.CountMapSize | trainer_hrlce.py:162 | `len(word_count)` is the number of distinct words |
| Vocab.CountStep | trainer_hrlce.py:154-157 | one counting step increments a known word or adds a new word with count 1 at the end of the key order |
| Vocab.ByFrequency | trainer_hrlce.py:159 | the sorted word list is a permutation of the keys |
| Vocab.ByFrequencyDescending | trainer_hrlce.py:159 | the sorted word list is in descending order of count |
| Vocab.ByFrequencyNoDuplicates | trainer_hrlce.py:159 | sorting distinct keys keeps them distinct |
| Vocab.ByFrequencyStable | trainer_hrlce.py:159 | words of equal count keep their dictionary order (stable sort, also with `reverse=True`) |
| Vocab.PyPrefix | trainer_hrlce.py:176 | `word_list[:k]` with Python slice semantics, including a negative `k` |
| Vocab.WordToId | trainer_hrlce.py:166-181 | `word2id` has as keys the three reserved tokens and the numbered words |
| Vocab.IdToWord | trainer_hrlce.py:166-181 | `id2word` has exactly the ids 0 to 2 plus the number of numbered words |
| Vocab.IdToWordAt | trainer_hrlce.py:166-181 | ids 0, 1, 2 name `<pad>`, `<unk>`, `<empty>`, and id `3 + j` names the `j`-th numbered word |
| Vocab.NumberSnoc | trainer_hrlce.py:178-181 | numbering one more word sets both maps at id `n` |
| Vocab.WordToIdAt | trainer_hrlce.py:166-181 | each distinct numbered word gets 3 plus its position, and a reserved token keeps its id unless a word is spelled like it |
| Vocab.WordToIdInverse | trainer_hrlce.py:166-181 | without reserved spellings, every key of `word2id` is named back by `id2word` |
| Vocab.IdToWordInverse | trainer_hrlce.py:166-181 | without reserved spellings, every id in `id2word` is given back by `word2id` |
| Vocab.NumberedSize | trainer_hrlce.py:166-181 | both maps have three plus the number of words entries |
| Vocab.Inverse | trainer_hrlce.py:166-181 | `word2id` and `id2word` are mutual inverses of the same size |
| Vocab.ReservedIdsKept | trainer_hrlce.py:166-172 | without reserved spellings, `<pad>` is 0, `<unk>` is 1 and `<empty>` is 2 |
| Vocab.VocabFails | trainer_hrlce.py:162-163 | `build_vocab` raises exactly when there are fewer distinct words than `vocab_size` |
| Vocab.PrefixFacts | trainer_hrlce.py:176 | a prefix of a distinct, descending list is distinct and descending |
| Vocab.KeptFacts | trainer_hrlce.py:159-181 | the numbered words are a distinct, count-descending prefix of the sorted list: all words in fill mode, `vocab_size - 3` of them otherwise |
| Vocab.NumberedIds | trainer_hrlce.py:166-181 | ids are contiguous from 0, the reserved tokens come first, then corpus words in descending count order |
| Vocab.VocabIds | trainer_hrlce.py:140-186 | a successful build numbers ids contiguously: reserved tokens at 0 to 2, then corpus words by descending frequency |
| Vocab.VocabInverse | trainer_hrlce.py:140-186 | without reserved spellings, the reserved ids are 0, 1, 2 and the two returned maps are mutual inverses |
| Vocab.VocabSize | trainer_hrlce.py:183-186 | the returned size is `len(id2word)` (3 plus all words) in fill mode, and `vocab_size` otherwise (for `vocab_size >= 3` and no reserved spellings) |
| Vocab.PrefixLeavesLessFrequent | trainer_hrlce.py:176-181 | a word cut off a descending list is at most as frequent as every numbered word |
| Vocab.UnnumberedBelow | trainer_hrlce.py:159-181 | a corpus word without an id has a count no higher than every numbered word's |
| Vocab.UnnumberedLessFrequent | trainer_hrlce.py:159-181 | the same, stated with occurrence counts in the corpus |
| Vocab.VocabKeepsMostFrequent | trainer_hrlce.py:140-186 | fill mode numbers every word, and any word left out is no more frequent than a numbered one |
| Vocab.CollectStrings | trainer_hrlce.py:142-147 | `all_str_list` is the three cleaned turns of every conversation, corpus after corpus |
| Vocab.CountToken | trainer_hrlce.py:154-157 | one step of the counting loop keeps `word_count` and its key order equal to those of the tokens seen so far |
| Vocab.CountTokens | trainer_hrlce.py:153-157 | the inner loop extends the count and key order by one string's tokens |
| Vocab.CountWords | trainer_hrlce.py:152-157 | the counting loop produces the word counts and key order of all tokens |
| Vocab.AddWords | trainer_hrlce.py:178-181 | the loop with counter `n` numbers the words from 3 on in order |
| Vocab.NumberWords | trainer_hrlce.py:165-181 | reserved tokens first, the word list cut unless in fill mode, then one id per word |
| Vocab.BuildVocab | trainer_hrlce.py:140-186 | the imperative builder returns exactly what the specification function gives, the exception included |
| Encoding.UnkIds | trainer_hrlce.py:227 | one id per token: its own when known, the `<unk>` id otherwise |
| Encoding.KnownIds | trainer_hrlce.py:229 | misses are dropped, so there are at most as many ids as tokens |
| Encoding.KnownTokens | trainer_hrlce.py:229 | the known tokens, exactly those of the text that are keys |
| Encoding.KnownIdsOfKnownTokens | trainer_hrlce.py:229 | dropping misses and then looking up is looking up the known tokens |
| Encoding.KnownIdsEmpty | trainer_hrlce.py:229-230 | nothing survives the lookup without `use_unk` exactly when no token is known |
| Encoding.KnownIdsAllKnown | trainer_hrlce.py:226-229 | with every token known, both lookup modes give the same ids |
| Encoding.Pad | trainer_hrlce.py:239 | `[pad_int] * n` has length `n` and holds only the pad id |
| Encoding.Truncate | trainer_hrlce.py:235-236 | truncation keeps the first `min(len, pad_len)` ids |
| Encoding.Encode | trainer_hrlce.py:224-241 | with the three reserved tokens in `word2id`, `sent_to_ids` never raises |
| Encoding.EncodeShape | trainer_hrlce.py:230-241 | exactly `pad_len` ids, a true length at most `pad_len` (and at least 1 when `pad_len >= 1`), pad ids after it, and the `<empty>` id alone in front after a substitution |
| Encoding.EncodeFails | trainer_hrlce.py:226-231 | `sent_to_ids` raises exactly when a missing `<unk>` or `<empty>` entry is read |
| Encoding.EncodeWithUnk | trainer_hrlce.py:226-237 | with `use_unk`: substitution iff there are no tokens; otherwise the prefix is the first `min(#tokens, pad_len)` tokens as their ids or the `<unk>` id |
| Encoding.EncodeDropping | trainer_hrlce.py:228-237 | without `use_unk`: substitution iff no token is known; otherwise the prefix is the ids of the known tokens, in order |
| Encoding.EncodeModesAgree | trainer_hrlce.py:226-229 | with every token known, `use_unk` makes no difference |
| Encoding.VocabHasReserved | trainer_hrlce.py:166-172 | every `word2id` that `build_vocab` returns holds the three reserved tokens |
| Datasets.TurnIds | trainer_hrlce.py:249-255 | one id list per conversation, entry `k` being the encoding of that turn of conversation `k` |
| Datasets.TurnLens | trainer_hrlce.py:249-259 | one true length per conversation, entry `k` being the true length of that turn of conversation `k` |
| Datasets.EmptyLines | trainer_hrlce.py:230-232 | the counter grows by at most three per conversation |
| Datasets.TurnShape | trainer_hrlce.py:249-259 | every stored id list is `sent_pad_len` long, with a true length between 1 (for a positive padding length) and `sent_pad_len` |
| Datasets.ReadAllAppends | trainer_hrlce.py:246-259 | reading the conversations appends to each list its values for those conversations, and adds their empty turns to the counter |
| Datasets.ReadAllStep | trainer_hrlce.py:246-259 | reading one more conversation is one more loop iteration |
| Datasets.Indexes | trainer_hrlce.py:265 | `e_c` is the list of class indices itself, each the index of that example's triple |
| Datasets.Binaries | trainer_hrlce.py:266 | `e_c_binary` holds the "others" flag of each example |
| Datasets.EmoVectors | trainer_hrlce.py:268-271 | `e_c_emo` holds the one-hot row of each example |
| Datasets.AddLabelsAppends | trainer_hrlce.py:265-271 | reading the classes appends their triples to the three label lists |
| Datasets.TrainDataSet.constructor | trainer_hrlce.py:190-222 | the lists hold, per conversation, the encoded turns, their lengths and the label triples, and the counter holds the number of empty turns |
| Datasets.TrainDataSet.SentToIds | trainer_hrlce.py:224-241 | returns the ids and true length of `sent_to_ids`, and bumps the counter exactly when the substitution happens |
| Datasets.TrainDataSet.ReadTurns | trainer_hrlce.py:249-259 | one loop iteration appends the three encoded turns and their lengths |
| Datasets.TrainDataSet.AppendLabels | trainer_hrlce.py:265-271 | one loop iteration appends the label triple of the class |
| Datasets.TrainDataSet.ReadExample | trainer_hrlce.py:246-271 | one iteration of `read_data`: turns, then labels |
| Datasets.TrainDataSet.ReadData | trainer_hrlce.py:243-271 | `read_data` appends the turns of all conversations and the label triples of all classes |
| Datasets.TestDataSet.constructor | trainer_hrlce.py:288-313 | the lists hold the encoded turns and lengths, the counter holds the number of empty turns, and the extra maps are copies of the given ones |
| Datasets.TestDataSet.SentToIds | trainer_hrlce.py:315-332 | the same contract as the training set's `sent_to_ids` |
| Datasets.TestDataSet.ReadTurns | trainer_hrlce.py:338-348 | one loop iteration appends the three encoded turns and their lengths |
| Datasets.TestDataSet.ReadData | trainer_hrlce.py:334-348 | `read_data` appends the turns of all conversations |
| Decoding.NonZeroFacts | trainer_hrlce.py:475 | the filter keeps exactly the non-zero ids: all of them when none is 0, none when all are |
| Decoding.NonZeroAppend | trainer_hrlce.py:475 | dropping 0 ids distributes over concatenation |
| Decoding.GloveTokenizer | trainer_hrlce.py:474-475 | the tokenizer succeeds iff every non-zero id is in `id2word`; a failure names a missing non-zero id of the input |
| Decoding.GloveTokenizerWords | trainer_hrlce.py:474-475 | on success, one word per non-zero id, in order, each that id's word |
| Decoding.GloveTokenizerFirstMissing | trainer_hrlce.py:475 | the `KeyError` names the first missing non-zero id |
| Decoding.DecodePadded | trainer_hrlce.py:474-475 | ids that are known and non-zero up to `n` and 0 after decode to the words of the first `n` ids |
| Decoding.UnkTokens | trainer_hrlce.py:227 | each token, or `<unk>` where it is missing |
| Decoding.EncodePrefix | trainer_hrlce.py:224-237 | the encoded prefix is the ids of the first `min(#surviving, pad_len)` surviving words |
| Decoding.KnownTokensEmpty | trainer_hrlce.py:229-230 | no token survives exactly when none is known |
| Decoding.SurvivingNotPad | trainer_hrlce.py:227-231 | `<pad>` survives only if the text contains it |
| Decoding.DecodeWords | trainer_hrlce.py:474-475 | a padded id list of a word prefix decodes back to that prefix |
| Decoding.DecodeEncode | trainer_hrlce.py:224-241 | `glove_tokenizer(sent_to_ids(text))` gives the first `min(#surviving, pad_len)` surviving words when `<pad>` is id 0 and every other id is non-zero and inverse |
| Decoding.DecodeVocab | trainer_hrlce.py:140-186 | the same round trip for the maps that `build_vocab` returns |
| FoldTraining.EpochCacheRule | trainer_hrlce.py:639-661 | a diverging epoch changes nothing, a stopping epoch writes no cache, a best epoch overwrites both caches, and other epochs fill only empty ones; epochs up to 4 never diverge |
| FoldTraining.EpochTiming | trainer_hrlce.py:644-698 | a best epoch `e` caches the inference results of epoch `e - 1`, and `es.step` receives the summed dev losses |
| FoldTraining.EpochFills | trainer_hrlce.py:648-661 | from epoch 1 on, an epoch that reaches the cache update leaves both caches filled |
| FoldTraining.RunEpochsFilled | trainer_hrlce.py:556-698 | once both caches are filled, they stay filled for the rest of the attempt |
| FoldTraining.EpochPaired | trainer_hrlce.py:648-661 | one epoch keeps the dev and test caches from one and the same epoch |
| FoldTraining.RunEpochsPaired | trainer_hrlce.py:556-698 | a whole attempt keeps the dev and test caches from one epoch |
| FoldTraining.AttemptPaired | trainer_hrlce.py:514-698 | the same from the start of an attempt |
| FoldTraining.AttemptsKeep | trainer_hrlce.py:514-709 | the retry loop keeps any cache property that every attempt keeps (`FoldResultPaired` applies it to the dev/test pairing) |
| FoldTraining.FoldResultPaired | trainer_hrlce.py:499-709 | a fold's two cached vectors come from one and the same epoch, or are both empty |
| FoldTraining.EmptyCacheAfterEarlyStop | trainer_hrlce.py:644-661 | a fold can end with no cached predictions even though an epoch completed |
| FoldTraining.StaleCacheAfterRestart | trainer_hrlce.py:701-704 | a diverged attempt's cached predictions become the fold's result when the restarted attempt's monitor never marks an epoch best before it stops |
| FoldTraining.FirstBestForgetsStaleCache | trainer_hrlce.py:551-555 | when the restarted attempt's monitor marks its first value best, epoch 0 empties both caches and the attempt ends as from an empty cache |
| FoldTraining.AttemptsStep | trainer_hrlce.py:701-709 | a diverged attempt restarts with the caches it left, and otherwise the attempt's caches are the fold's result |
| FoldTraining.RunAttempt | trainer_hrlce.py:552-698 | the epoch loop with its two `break`s computes the specified attempt outcome |
| FoldTraining.OneFold | trainer_hrlce.py:499-709 | the retry loop returns the specified fold result |
| FoldTraining.AllFolds | trainer_hrlce.py:715-717 | one result per fold |
| FoldTraining.TrainFolds | trainer_hrlce.py:715-717 | `all_fold_results` and `real_test_results` hold the dev and test cache of each fold, in fold order |
| FoldTraining.AllFoldsFails | trainer_hrlce.py:715-717 | a fold that never converges makes the run fail |
| Voting.VotesCount | trainer_hrlce.py:723-727 | the running count is the multiplicity in the prefix |
| Voting.VotesGrow | trainer_hrlce.py:723-727 | running counts never decrease |
| Voting.PluralityUnique | trainer_hrlce.py:720-732 | the vote is determined: one value at most is the answer |
| Voting.TallyStep | trainer_hrlce.py:723-730 | one loop pass keeps `myMap` equal to the running counts and `maximum` at the first value to reach the top count |
| Voting.TalliedPlurality | trainer_hrlce.py:732 | after the last vote, the running maximum is the plurality |
| Voting.FindMajority | trainer_hrlce.py:720-732 | returns the most frequent value, the first to reach that count, together with its count; the empty input is handled |
| Voting.TieOfTwo | trainer_hrlce.py:730 | `[0, 1]` votes 0 |
| Voting.TwoOfThree | trainer_hrlce.py:720-732 | `[0, 0, 1]` votes 0 |
| Voting.TieGoesToFirstToReach | trainer_hrlce.py:730 | `[1, 0, 0, 1]` votes 0, the first value to reach two votes |
| Voting.AsMatrix | trainer_hrlce.py:734 | the fold results form a matrix exactly when there is at least one fold, all folds have predictions, and the rows are equally long |
| Voting.Column | trainer_hrlce.py:738 | `results[:, col]` holds every fold's vote for example `col` |
| Voting.MajorityByColumn | trainer_hrlce.py:736-739 | one label per column, each the plurality of that column's votes; it fails exactly when the results are not a matrix |
| Submission.LabelName | trainer_hrlce.py:763 | `EMOS[v]` with Python's negative indexing, `None` exactly out of range |
| Submission.LastFieldSplits | trainer_hrlce.py:763 | a line splits at its last tab when the field holds no tab |
| Submission.ParseBuilt | trainer_hrlce.py:761-763 | a line built from a text and a tab-free field reads back as the stripped text and the field |
| Submission.NamesHaveNoTab | trainer_hrlce.py:763 | no label name contains a tab |
| Submission.LineRoundTrip | trainer_hrlce.py:759-763 | every written line reads back as the stripped input line and `label` on the header, or the voted label's name elsewhere |
| Submission.LineFails | trainer_hrlce.py:763 | writing fails exactly when a test line has no vote or its vote names no label |
| Submission.WriteSubmission | trainer_hrlce.py:759-763 | the lines before the first error are written, and an error is reported exactly when not all were |
| Submission.SubmissionComplete | trainer_hrlce.py:759-763 | with one valid vote per test line, every line is written |

## Left out

- Files, printing, GPU, torch, ELMo, DeepMoji, `HierarchicalPredictor`, the GloVe embeddings,
  `processing_pipeline` and `emoji_st`. These are I/O, numeric work or library code; the
  `emoji_a/b/c` lists are not modelled.
- The loss and the class weights. An epoch's result is given as a function `train(t, e)` of
  the attempt and the epoch: the summed dev loss, as a real number instead of a float, and the
  argmax dev and test predictions. The dev set size is a positive parameter
  (`len(dev_data_set)`).
- `EarlyStopping` is not part of this model. `es.step` and `es.is_best` are functions of the
  values given to `es.step` so far in the attempt, with a fresh monitor per attempt.
- `StratifiedKFold` and the random shuffle; each fold is given by its trainer function and dev
  size. `load_data_context` and the target list come in as given values.
- `FoldTraining.OneFold`: the `while True` retry loop can run forever. The model gives up after
  `maxAttempts` attempts with `RetriesExhausted`.
- `Labels.ToCategorical`: `np.zeros` builds a float matrix; the model uses an integer array.
  The only values ever stored are 0 and 1, and both are exact in either type.
- `NUM_EMO` comes from a module outside this file, so it is a parameter of
  `Labels.ToCategorical`.
- `Datasets.TrainDataSet.constructor` and `Datasets.TestDataSet.constructor` require
  `word2id` to hold all three reserved tokens. Python needs only `<pad>` at construction
  (`word2id['<pad>']`). A missing `<unk>` or `<empty>` raises inside `sent_to_ids`, and only
  when that entry is read. `Encoding.Encode` and `Encoding.EncodeFails` model that error path.
  Every dataset in the script is built from a `build_vocab` map, which holds all three
  (`Encoding.VocabHasReserved`).
- The `max_size` argument of `TrainDataSet`: it slices attributes that the class never sets.
- `__len__` and `__getitem__`.
- The dataset specifications are stated for any sentence encoder. `Datasets.TurnShape` applies
  them to `sent_to_ids`, and the class methods use `sent_to_ids` itself.
- `Voting.FindMajority`: on an empty column Python returns `('', 0)`; the model returns `None`
  with count 0.
- Strings are sequences of characters; Python's `str` methods are modelled only as `split()`
  and `strip()` need them.
