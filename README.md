# Cross-lingual language-model task

A model, in Dafny, of the core of fairseq's `cross_lingual_lm` task
(`CrossLingualLMTask`). It covers three parts of that class:

- **`_lang_to_id`** turns the `--monolingual-langs` option into a map from
  language codes to integer ids, which serve as segment labels. The option is
  split at commas, each piece is stripped of whitespace, and each code gets its
  position. A code that is listed again keeps its first place in the map's
  order but takes the later position as its id.
- **`__init__`** stores the options and the vocabulary and builds that map. The
  default key starts unset.
- **`load_dataset(split)`** walks the language map in order:
  - it sets the task's default key to the first language if it is still unset;
  - it looks for the shard `<data>/<split>.<lang>` in the configured format;
  - it wraps the shard in a token-block dataset, and that in a masked-LM
    dataset carrying the language's id as segment id;
  - only when every shard is found does it register the merged multi-corpus
    dataset under `split`.

Files:

- `wrappers.dfy`: `Option` and `Result`.
- `strings.dfy`: Python's `str.split(sep)` and `str.strip()`.
  - `strip()` removes exactly the characters for which `str.isspace()` holds.
  - An empty string splits into one empty piece.
- `ordered_dicts.dfy`: insertion-ordered dictionaries. Re-assigning a key keeps
  its place, as both Python's `dict` and `OrderedDict` do.
- `language_ids.dfy`: `_lang_to_id`.
  - A specification function `IdsOf` over the stripped pieces.
  - A method `LangToId` with the source's loop, proved equal to `IdsOf`.
  - Lemmas about ids, order and duplicates.
- `cross_lingual_lm.dfy`: `load_dataset` and the task class.
  - The specification functions: `BuildMap` (the loop as a fold) and `Load`
    (one call's effect on the task state).
  - The method `LoadLanguages`, which holds the loop, and the class
    `CrossLingualLMTask`, whose `LoadDataset` updates `defaultKey` and
    `datasets` in place and is proved equal to `Load`.
  - Lemmas about one load and about a sequence of loads (`Replay`).

The dataset classes (`IndexedRawTextDataset`, `IndexedDataset`,
`IndexedCachedDataset`, `TokenBlockDataset`, `MaskedLMDataset`,
`MultiCorpusSampledDataset`) are foreign. Each is modelled as a record of the
arguments it is built with. Their `exists` checks are modelled as a
`FileSystem` value: the two sets of paths for which `IndexedRawTextDataset.exists`
and `IndexedDataset.exists` answer true. That value is passed to each load.

Three behaviours of `load_dataset` worth knowing:

- `load_dataset` has no cache check: what it returns does not depend on what
  is already registered (`LoadIgnoresRegistry`). Every successful call rebuilds
  the dataset and overwrites `datasets[split]`. A failing call leaves it
  unchanged, even for a split registered earlier whose shard has since gone
  missing.
- Raw-text mode accepts only a raw-text shard and never falls back to the
  indexed format. Indexed mode accepts only an indexed shard (`OpenShard`).
- The `FileNotFoundError` message holds `<split>.<lang>` and the data
  directory. These are the two fields of `LoadError`.

## Model

| member | source | states |
|---|---|---|
| Strings.Split | fairseq/tasks/cross_lingual_lm.py:73 | `languages.split(',')` gives one piece more than there are commas, and no piece contains a comma |
| Strings.JoinSplit | fairseq/tasks/cross_lingual_lm.py:73 | joining the pieces of a split with the same separator gives back the input, so the split loses no character |
| Strings.SplitJoin | fairseq/tasks/cross_lingual_lm.py:73 | splitting a join of comma-free pieces gives back exactly those pieces |
| Strings.IsSpace | fairseq/tasks/cross_lingual_lm.py:73 | the characters `strip()` removes: exactly those for which Python's `str.isspace()` holds |
| Strings.Strip | fairseq/tasks/cross_lingual_lm.py:73 | `strip()` is never longer than its input, and the result neither starts nor ends with whitespace |
| Strings.StripIsInnerSlice | fairseq/tasks/cross_lingual_lm.py:73 | `strip()` is the contiguous slice of the input from its first to its last non-space, and everything cut away on either side is whitespace |
| Strings.StripAddsNothing | fairseq/tasks/cross_lingual_lm.py:73 | a character absent from a piece is absent from its strip |
| Strings.StripUnpadded | fairseq/tasks/cross_lingual_lm.py:73 | a piece without leading or trailing whitespace is unchanged by `strip()` |
| Strings.StripLeadingSpace | fairseq/tasks/cross_lingual_lm.py:73 | a leading whitespace character does not survive `strip()` |
| Strings.StripIdempotent | fairseq/tasks/cross_lingual_lm.py:73 | stripping twice is stripping once |
| OrderedDicts.OrderedDict.Set | fairseq/tasks/cross_lingual_lm.py:75 | after `d[k] = v` the key `k` maps to `v` |
| OrderedDicts.SetKeepsOrder | fairseq/tasks/cross_lingual_lm.py:75 | `d[k] = v` keeps the dict well formed, adds exactly `k` to the keys, leaves every other key's value alone, and appends `k` to the iteration order only if it was absent |
| OrderedDicts.Empty | fairseq/tasks/cross_lingual_lm.py:72 | `{}` is a well-formed dict with no keys |
| OrderedDicts.DistinctIffNoRepeats | fairseq/tasks/cross_lingual_lm.py:74-75 | a key order is repetition-free exactly when no two positions hold the same key, in both directions |
| OrderedDicts.SizeIsKeyCount | fairseq/tasks/cross_lingual_lm.py:72-75 | a well-formed dict has as many entries as keys in its iteration order |
| LanguageIds.StripAll | fairseq/tasks/cross_lingual_lm.py:73 | the list comprehension yields one code per raw piece |
| LanguageIds.StripAllAt | fairseq/tasks/cross_lingual_lm.py:73 | each code is the strip of the raw piece at the same position |
| LanguageIds.Pieces | fairseq/tasks/cross_lingual_lm.py:73 | `[l.strip() for l in languages.split(',')]` yields one code per comma, plus one |
| LanguageIds.CodesAreUnpadded | fairseq/tasks/cross_lingual_lm.py:73 | every code is comma-free and neither starts nor ends with whitespace |
| LanguageIds.IdsOf | fairseq/tasks/cross_lingual_lm.py:72-75 | the map the loop leaves behind is always a well-formed ordered dict |
| LanguageIds.LangToId | fairseq/tasks/cross_lingual_lm.py:64-76 | the method's loop over `enumerate(langs)` returns exactly the dict `IdsOf` specifies for the stripped pieces |
| LanguageIds.IdsAreLastOccurrences | fairseq/tasks/cross_lingual_lm.py:74-75 | the keys are exactly the codes, in both directions, and each key's id is the position of its last occurrence, so every id lies in `[0, number of pieces)` |
| LanguageIds.IdsKeepFirstOccurrenceOrder | fairseq/tasks/cross_lingual_lm.py:72-75 | the keys iterate in the order in which the codes first appear |
| LanguageIds.AppendKeepsFirstSeenOrder | fairseq/tasks/cross_lingual_lm.py:74-75 | one more assignment keeps the first-seen order; a new code goes last and a repeated one keeps its place |
| LanguageIds.DistinctCodesGetPositions | fairseq/tasks/cross_lingual_lm.py:73-75 | with no repeated code, the keys are the codes in the order written and their ids are `0 .. n-1` |
| LanguageIds.DuplicatesShrinkTheMap | fairseq/tasks/cross_lingual_lm.py:74-75 | the map never has more entries than pieces, and has exactly as many only when no code repeats, in both directions |
| LanguageIds.LangIdsFromOption | fairseq/tasks/cross_lingual_lm.py:73-75 | every stripped piece of the option is a key, and every key is the stripped piece at its id, which is a piece position |
| LanguageIds.PiecesOfJoin | fairseq/tasks/cross_lingual_lm.py:73 | an option written as comma-joined pieces parses to those pieces, stripped |
| LanguageIds.DefaultLanguage | fairseq/tasks/cross_lingual_lm.py:73-75 | the option's default value `"en"` gives `{en: 0}` |
| LanguageIds.ThreeLanguages | fairseq/tasks/cross_lingual_lm.py:73-75 | three different codes written as `"a, b,c"` get ids 0, 1 and 2 in that order |
| LanguageIds.RepeatedLanguage | fairseq/tasks/cross_lingual_lm.py:73-75 | `"a,b,a"` gives `{a: 2, b: 1}`: the repeated code keeps its first place, takes its last position, and id 0 is unused |
| CrossLingualLM.LanguageSplit | fairseq/tasks/cross_lingual_lm.py:116 | the shard's file name `'{}.{}'.format(split, lang)`: the split, a dot, then the language code |
| CrossLingualLM.PathJoin | fairseq/tasks/cross_lingual_lm.py:117 | POSIX `os.path.join(a, b)`: an absolute `b` replaces `a`; otherwise `b` follows `a`, with a `/` between them unless `a` is empty or already ends with `/` |
| CrossLingualLM.ShardPath | fairseq/tasks/cross_lingual_lm.py:116-117 | where a language's shard is looked for: the data directory joined with `<split>.<lang>` |
| CrossLingualLM.ShardFound | fairseq/tasks/cross_lingual_lm.py:119-121 | the two `exists` tests as the code applies them. Raw-text mode asks only `IndexedRawTextDataset.exists`, and indexed mode only `IndexedDataset.exists`, on the shard path |
| CrossLingualLM.PathJoinShape | fairseq/tasks/cross_lingual_lm.py:116-117 | the shard path ends with `<split>.<lang>`; a relative name keeps the data directory as its prefix, separated by exactly one `/` |
| CrossLingualLM.OpenShard | fairseq/tasks/cross_lingual_lm.py:115-128 | a shard opens exactly when it exists in the configured format, with no fallback to the other format. Raw-text mode gives a raw-text dataset over the dictionary. Otherwise it gives `IndexedDataset` when lazy and `IndexedCachedDataset` when not, both with Lua indexing fixed. The path is `data` joined with `<split>.<lang>`. A missing shard is a not-found error naming `<split>.<lang>` and `data` |
| CrossLingualLM.Entry | fairseq/tasks/cross_lingual_lm.py:133-153 | the `TokenBlockDataset` over the shard and the `MaskedLMDataset` over it, with the arguments the code passes: block size `tokens_per_sample - 1`, the dictionary's pad and eos, its mask index, eos as classification and separator token, `shuffle` defaulting to false, no pairs, the language's segment id and the task's seed |
| CrossLingualLM.BuildMap | fairseq/tasks/cross_lingual_lm.py:110-153 | the loop over the language map as a fold from position `i` with the map built so far. Each language's entry is added in order, and the first missing shard ends the fold with its error |
| CrossLingualLM.DefaultKeyAfter | fairseq/tasks/cross_lingual_lm.py:112-114 | the default key after the loop: an unset key becomes the first language of a non-empty map, and a set key stays as it is |
| CrossLingualLM.Load | fairseq/tasks/cross_lingual_lm.py:105-157 | one `load_dataset` call as a state transition. The default key is fixed by the loop even when a shard is missing. `datasets[split]` is written with the merged dataset only on success, and a failure returns the not-found error with the registry unchanged |
| CrossLingualLM.BuildMapValid | fairseq/tasks/cross_lingual_lm.py:109-151 | the per-language map the loop builds stays a well-formed ordered dict |
| CrossLingualLM.BuildMapSucceedsIff | fairseq/tasks/cross_lingual_lm.py:111-128 | the loop runs to the end exactly when every remaining language's shard is found, in both directions |
| CrossLingualLM.BuildMapNamesFirstMissing | fairseq/tasks/cross_lingual_lm.py:111-128 | a failed loop raises the error of the first language, in loop order, whose shard is missing |
| CrossLingualLM.BuildMapKeys | fairseq/tasks/cross_lingual_lm.py:109-151 | a completed loop over distinct languages lists them in loop order |
| CrossLingualLM.BuildMapEntries | fairseq/tasks/cross_lingual_lm.py:129-151 | a completed loop holds, for each language, the entry built over its opened shard with its own id, and keeps the entries already made |
| CrossLingualLM.DefaultKeySetOnce | fairseq/tasks/cross_lingual_lm.py:112-113 | a set default key is never changed. An unset one becomes the first key of the language map, or stays unset when the map is empty |
| CrossLingualLM.LoadFailsOnMissingShard | fairseq/tasks/cross_lingual_lm.py:111-157 | a load succeeds exactly when every language's shard is found, in both directions. A failure raises the not-found error of the first language, in loop order, whose shard is missing, and leaves the registered datasets as they were |
| CrossLingualLM.LoadTouchesOnlyItsSplit | fairseq/tasks/cross_lingual_lm.py:155-157 | a successful load registers its result under `split`, and every other split keeps its dataset, with none added or removed |
| CrossLingualLM.LoadedMapIsPerLanguageEntries | fairseq/tasks/cross_lingual_lm.py:109-151 | a completed loop's map has the language map's keys in its order, and for each language the entry over the shard opened for it |
| CrossLingualLM.LoadRegistersEveryLanguage | fairseq/tasks/cross_lingual_lm.py:109-157 | each language's registered entry is built over the shard `<data>/<split>.<lang>` in the configured format. It has: blocks of `tokens_per_sample - 1`; eos as classification and separator token; no pairs; `shuffle` defaulting to false; the task's seed; the language's id as segment id. The merged dataset uses the task's default key |
| CrossLingualLM.LoadIsIdempotent | fairseq/tasks/cross_lingual_lm.py:105-157 | repeating a load over the same files gives the same result and leaves the same state |
| CrossLingualLM.LoadIgnoresRegistry | fairseq/tasks/cross_lingual_lm.py:110-157 | no cache check. A load's result is the same whatever datasets are registered. A success overwrites `datasets[split]` with the rebuilt dataset. A registered split with a shard that is now missing fails to reload and keeps its old dataset |
| CrossLingualLM.DefaultKeyNeverChanges | fairseq/tasks/cross_lingual_lm.py:112-113 | once the default key is set, no sequence of loads for any splits changes it |
| CrossLingualLM.OtherSplitsKeepTheirDataset | fairseq/tasks/cross_lingual_lm.py:155-157 | loads of other splits, successful or not, leave a registered split's dataset untouched |
| CrossLingualLM.FirstCodeIsFirstKey | fairseq/tasks/cross_lingual_lm.py:73-75 | the language map is never empty, and its first key is the first listed code |
| CrossLingualLM.FirstLoadFixesDefaultKey | fairseq/tasks/cross_lingual_lm.py:111-113 | from a fresh task, the first load fixes the default key to the first key of the language map, even when its shards are missing, and it stays so |
| CrossLingualLM.DefaultKeyIsFirstListedLanguage | fairseq/tasks/cross_lingual_lm.py:111-113 | after any non-empty sequence of loads on a fresh task, the default key is the first code of `--monolingual-langs` |
| CrossLingualLM.LoadLanguages | fairseq/tasks/cross_lingual_lm.py:109-151 | the imperative loop leaves the default key `DefaultKeyAfter` specifies, and returns the error or the map the fold `BuildMap` specifies |
| CrossLingualLM.CrossLingualLMTask.constructor | fairseq/tasks/cross_lingual_lm.py:56-62 | the task stores its options and vocabulary, builds its language map from the option, and starts with no default key and no datasets |
| CrossLingualLM.CrossLingualLMTask.LoadDataset | fairseq/tasks/cross_lingual_lm.py:105-157 | the new `defaultKey` and `datasets` fields, and the result, are those `Load` gives for the old fields |

## Left out

- `add_args` only configures argparse. The options it declares appear as the fields of `Args`.
- `load_dictionary`, `build_dictionary`, `setup_task` and `target_dictionary` read files or call into `MaskedLMDictionary`/`Dictionary`, which are not part of this model. The vocabulary is a `Dictionary` record of its pad, eos and mask indices.
- The internals of the dataset classes are left out: block splitting, masking, multi-corpus sampling, and the `sizes` arrays passed along. Each class is a record of the arguments that this file gives it.
- The `exists` checks read the disk. They are the `FileSystem` parameter of each load.
- The `print` logging and the example count it reports are left out.
- The `combine` parameter of `load_dataset` is unused by the code.
- `super().__init__(args)` belongs to `FairseqTask`, which is not part of this model. The task's `datasets` registry starts empty, as that base class leaves it.
- `os.path.join` is modelled with its POSIX behaviour for two components, not the Windows one.
- The `FileNotFoundError` message text is reduced to the two values it formats.
- CrossLingualLM.CrossLingualLMTask.LoadDataset returns the registered dataset or the error as a `Result`. The source returns `None` and raises instead.
- CrossLingualLM.LoadLanguages keeps the default key in a local during the loop, and `LoadDataset` writes it to the field once afterwards, also when a shard is missing. The field's final value is the source's. No intermediate value is visible, because nothing else runs during the loop.
- Concurrency is left out: the task is used from one thread.
- `seed` and `distributed_world_size` are stored and passed through only.
