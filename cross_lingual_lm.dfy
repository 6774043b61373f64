/**
 * The cross-lingual language-model task (`CrossLingualLMTask`): for one data
 * split it finds each language's shard on disk, wraps it in a block dataset
 * and a masked-LM dataset tagged with the language's segment id, and registers
 * the per-language datasets, merged into one multi-corpus sampled dataset,
 * under the split's name.
 *
 * The dataset classes are foreign: each is modelled as a record of the
 * arguments it is constructed with, and their `exists` checks as the sets of
 * paths for which they answer true.
 */
module CrossLingualLM {
  import opened Wrappers
  import opened OrderedDicts
  import opened Strings
  import opened LanguageIds

  /** The reserved indices of the task's vocabulary that this task passes on. */
  datatype Dictionary = Dictionary(pad: int, eos: int, mask: int)

  /** The parsed command-line options the task reads. */
  datatype Args = Args(
    data: string,
    tokensPerSample: int,
    monolingualLangs: string,
    rawText: bool,
    lazyLoad: bool,
    shuffle: Option<bool>,  // None when the option was never declared
    seed: int,
    distributedWorldSize: int)

  /**
   * The file system as the dataset classes see it: the paths for which
   * `IndexedRawTextDataset.exists` and `IndexedDataset.exists` answer true.
   */
  datatype FileSystem = FileSystem(rawText: set<string>, indexed: set<string>)

  /** A per-language, per-split shard, as one of the three dataset classes opens it. */
  datatype Shard =
    | RawText(path: string, dictionary: Dictionary)           // IndexedRawTextDataset(path, dictionary)
    | Indexed(path: string, fixLuaIndexing: bool)              // IndexedDataset(path, fix_lua_indexing=...)
    | IndexedCached(path: string, fixLuaIndexing: bool)        // IndexedCachedDataset(path, fix_lua_indexing=...)

  /** `TokenBlockDataset(dataset, sizes, block_size, pad, eos)`. */
  datatype TokenBlocks = TokenBlocks(dataset: Shard, blockSize: int, pad: int, eos: int)

  /** `MaskedLMDataset(...)` over a block dataset. */
  datatype MaskedLM = MaskedLM(
    dataset: TokenBlocks,
    vocab: Dictionary,
    padIdx: int,
    maskIdx: int,
    classifTokenIdx: int,
    sepTokenIdx: int,
    shuffle: bool,
    hasPairs: bool,
    segmentId: int,
    seed: int)

  /** `MultiCorpusSampledDataset(dataset_map, default_key)`. */
  datatype MultiCorpus = MultiCorpus(datasets: OrderedDict<string, MaskedLM>, defaultKey: Option<string>)

  /**
   * The `FileNotFoundError` raised for a missing shard, with the two values its
   * message names: the shard's `<split>.<lang>` name and the data directory.
   */
  datatype LoadError = DatasetNotFound(languageSplit: string, data: string)

  /** `'{}.{}'.format(split, lang)`: the shard's file name. */
  function LanguageSplit(split: string, lang: string): string {
    split + "." + lang
  }

  /**
   * `os.path.join(a, b)` on POSIX: an absolute `b` replaces `a`; otherwise `b`
   * is appended after a `/`, which is left out when `a` is empty or already
   * ends with one.
   */
  function PathJoin(a: string, b: string): string {
    if b != [] && b[0] == '/' then b
    else if a == [] || a[|a| - 1] == '/' then a + b
    else a + "/" + b
  }

  /**
   * The joined path ends with `b`; a relative `b` keeps `a` as the directory
   * part, separated by exactly one `/`.
   */
  lemma PathJoinShape(a: string, b: string)
    ensures var p := PathJoin(a, b);
      && |b| <= |p| && p[|p| - |b|..] == b
      && ((b == [] || b[0] != '/') ==> |a| <= |p| && p[..|a|] == a)
      && ((b == [] || b[0] != '/') && a != [] && a[|a| - 1] != '/' ==> p == a + "/" + b)
  {
  }

  /** Where the shard of `lang` for `split` is looked for. */
  function ShardPath(data: string, split: string, lang: string): string {
    PathJoin(data, LanguageSplit(split, lang))
  }

  /**
   * The dataset class of the configured format finds the shard of `lang` for
   * `split`: raw-text mode looks only for a raw-text file, otherwise only for
   * an indexed one.
   */
  predicate ShardFound(args: Args, fs: FileSystem, split: string, lang: string) {
    var path := ShardPath(args.data, split, lang);
    if args.rawText then path in fs.rawText else path in fs.indexed
  }

  /**
   * The shard-format rule: in raw-text mode only a raw-text shard is accepted,
   * otherwise only an indexed one, opened lazily or cached as `lazyLoad` says;
   * a shard not found in the configured format is an error naming it.
   */
  function OpenShard(args: Args, dictionary: Dictionary, fs: FileSystem, split: string, lang: string)
    : (r: Result<Shard, LoadError>)
    ensures r.Ok? <==> ShardFound(args, fs, split, lang)
    ensures r.Ok? ==> r.value.path == ShardPath(args.data, split, lang)
    ensures r.Ok? ==> (r.value.RawText? <==> args.rawText)
    ensures r.Ok? && r.value.RawText? ==> r.value.dictionary == dictionary
    ensures r.Ok? && !args.rawText ==> (r.value.Indexed? <==> args.lazyLoad) && r.value.fixLuaIndexing
    ensures r.Err? ==> r.error == DatasetNotFound(LanguageSplit(split, lang), args.data)
  {
    var languageSplit := LanguageSplit(split, lang);
    var path := PathJoin(args.data, languageSplit);
    if args.rawText && path in fs.rawText then
      Ok(RawText(path, dictionary))
    else if !args.rawText && path in fs.indexed then
      Ok(if args.lazyLoad then Indexed(path, true) else IndexedCached(path, true))
    else
      Err(DatasetNotFound(languageSplit, args.data))
  }

  /**
   * The masked-LM dataset of one language: blocks one token shorter than a
   * sample, end-of-sentence as both classification and separator token,
   * single segments, and the language's segment id.
   */
  function Entry(args: Args, dictionary: Dictionary, segmentId: int, shard: Shard): MaskedLM {
    var blocks := TokenBlocks(shard, args.tokensPerSample - 1, dictionary.pad, dictionary.eos);
    MaskedLM(
      dataset := blocks,
      vocab := dictionary,
      padIdx := dictionary.pad,
      maskIdx := dictionary.mask,
      classifTokenIdx := dictionary.eos,
      sepTokenIdx := dictionary.eos,
      shuffle := args.shuffle.GetOr(false),
      hasPairs := false,
      segmentId := segmentId,
      seed := args.seed)
  }

  /** Every language of `langs` has an id. */
  predicate Keyed(ids: LangIds, langs: seq<string>) {
    forall j | 0 <= j < |langs| :: langs[j] in ids.entries
  }

  /**
   * The result of the `load_dataset` loop resumed at position `i` of `langs`
   * with the map `m` built so far: each remaining language's entry is added in
   * turn, and the first one whose shard is missing stops the loop with its
   * error.
   */
  function BuildMap(args: Args, dictionary: Dictionary, fs: FileSystem, split: string,
                    ids: LangIds, langs: seq<string>, i: nat, m: OrderedDict<string, MaskedLM>)
    : Result<OrderedDict<string, MaskedLM>, LoadError>
    requires i <= |langs|
    requires Keyed(ids, langs)
    decreases |langs| - i
  {
    if i == |langs| then Ok(m)
    else
      var lang := langs[i];
      match OpenShard(args, dictionary, fs, split, lang)
      case Err(e) => Err(e)
      case Ok(shard) =>
        BuildMap(args, dictionary, fs, split, ids, langs, i + 1, m.Set(lang, Entry(args, dictionary, ids.entries[lang], shard)))
  }

  /** A language whose shard is opened adds its entry, and the loop goes on. */
  lemma BuildMapContinues(args: Args, dictionary: Dictionary, fs: FileSystem, split: string,
                          ids: LangIds, langs: seq<string>, i: nat, m: OrderedDict<string, MaskedLM>, shard: Shard, m': OrderedDict<string, MaskedLM>)
    requires i < |langs|
    requires Keyed(ids, langs)
    requires OpenShard(args, dictionary, fs, split, langs[i]) == Ok(shard)
    requires m' == m.Set(langs[i], Entry(args, dictionary, ids.entries[langs[i]], shard))
    ensures BuildMap(args, dictionary, fs, split, ids, langs, i, m)
      == BuildMap(args, dictionary, fs, split, ids, langs, i + 1, m')
  {
  }

  /** A language whose shard is missing stops the loop with its error. */
  lemma BuildMapStops(args: Args, dictionary: Dictionary, fs: FileSystem, split: string,
                      ids: LangIds, langs: seq<string>, i: nat, m: OrderedDict<string, MaskedLM>)
    requires i < |langs|
    requires Keyed(ids, langs)
    requires OpenShard(args, dictionary, fs, split, langs[i]).Err?
    ensures BuildMap(args, dictionary, fs, split, ids, langs, i, m) == Err(OpenShard(args, dictionary, fs, split, langs[i]).error)
  {
  }

  /** `if self.default_key is None: self.default_key = lang` over the loop's languages. */
  function DefaultKeyAfter(defaultKey: Option<string>, langs: seq<string>): Option<string> {
    if defaultKey.None? && langs != [] then Some(langs[0]) else defaultKey
  }

  /** The task's mutable state: the default key and the per-split registry. */
  datatype TaskState = TaskState(defaultKey: Option<string>, datasets: map<string, MultiCorpus>)

  /** The state after a load, and either the registered dataset or the error raised. */
  datatype LoadOutcome = LoadOutcome(state: TaskState, result: Result<MultiCorpus, LoadError>)

  /**
   * `load_dataset(split)`: the default key is fixed by the first language if
   * still unset (even when a shard then turns out to be missing), and only on
   * success is `datasets[split]` (over)written with the merged dataset.
   */
  function Load(args: Args, dictionary: Dictionary, ids: LangIds, st: TaskState,
                split: string, fs: FileSystem): LoadOutcome
    requires ids.Valid()
  {
    var key := DefaultKeyAfter(st.defaultKey, ids.keys);
    match BuildMap(args, dictionary, fs, split, ids, ids.keys, 0, Empty())
    case Ok(m) =>
      var merged := MultiCorpus(m, key);
      LoadOutcome(TaskState(key, st.datasets[split := merged]), Ok(merged))
    case Err(e) =>
      LoadOutcome(TaskState(key, st.datasets), Err(e))
  }

  /** A load whose loop runs to the end registers the map it built. */
  lemma LoadOfMap(args: Args, dictionary: Dictionary, ids: LangIds, st: TaskState,
                  split: string, fs: FileSystem, m: OrderedDict<string, MaskedLM>)
    requires ids.Valid()
    requires BuildMap(args, dictionary, fs, split, ids, ids.keys, 0, Empty()) == Ok(m)
    ensures var key := DefaultKeyAfter(st.defaultKey, ids.keys);
      Load(args, dictionary, ids, st, split, fs)
        == LoadOutcome(TaskState(key, st.datasets[split := MultiCorpus(m, key)]), Ok(MultiCorpus(m, key)))
  {
  }

  /** A load whose loop stops at a missing shard raises its error and registers nothing. */
  lemma LoadOfError(args: Args, dictionary: Dictionary, ids: LangIds, st: TaskState,
                    split: string, fs: FileSystem, e: LoadError)
    requires ids.Valid()
    requires BuildMap(args, dictionary, fs, split, ids, ids.keys, 0, Empty()) == Err(e)
    ensures Load(args, dictionary, ids, st, split, fs)
      == LoadOutcome(TaskState(DefaultKeyAfter(st.defaultKey, ids.keys), st.datasets), Err(e))
  {
  }

  /** One `load_dataset` call: the split and the file system it sees. */
  datatype Request = Request(split: string, fs: FileSystem)

  /** The state after the given `load_dataset` calls, in order. */
  function Replay(args: Args, dictionary: Dictionary, ids: LangIds, st: TaskState,
                  requests: seq<Request>): TaskState
    requires ids.Valid()
    decreases |requests|
  {
    if requests == [] then st
    else
      var next := Load(args, dictionary, ids, st, requests[0].split, requests[0].fs).state;
      Replay(args, dictionary, ids, next, requests[1..])
  }

  // ---------------------------------------------------------------------------
  // Properties of the per-language map

  /** Adding entries keeps the map a well-formed insertion-ordered dictionary. */
  lemma {:induction false} BuildMapValid(args: Args, dictionary: Dictionary, fs: FileSystem, split: string,
                                        ids: LangIds, langs: seq<string>, i: nat, m: OrderedDict<string, MaskedLM>)
    requires i <= |langs|
    requires Keyed(ids, langs)
    requires m.Valid()
    requires BuildMap(args, dictionary, fs, split, ids, langs, i, m).Ok?
    ensures BuildMap(args, dictionary, fs, split, ids, langs, i, m).value.Valid()
    decreases |langs| - i
  {
    if i < |langs| {
      var lang := langs[i];
      var shard := OpenShard(args, dictionary, fs, split, lang).value;
      SetKeepsOrder(m, lang, Entry(args, dictionary, ids.entries[lang], shard));
      BuildMapValid(args, dictionary, fs, split, ids, langs, i + 1,
                    m.Set(lang, Entry(args, dictionary, ids.entries[lang], shard)));
    }
  }

  /** The loop runs to the end exactly when every remaining language's shard is found. */
  lemma {:induction false} BuildMapSucceedsIff(args: Args, dictionary: Dictionary, fs: FileSystem, split: string,
                                              ids: LangIds, langs: seq<string>, i: nat, m: OrderedDict<string, MaskedLM>)
    requires i <= |langs|
    requires Keyed(ids, langs)
    ensures BuildMap(args, dictionary, fs, split, ids, langs, i, m).Ok? <==>
      forall j | i <= j < |langs| :: ShardFound(args, fs, split, langs[j])
    decreases |langs| - i
  {
    if i < |langs| && ShardFound(args, fs, split, langs[i]) {
      var lang := langs[i];
      var shard := OpenShard(args, dictionary, fs, split, lang).value;
      BuildMapSucceedsIff(args, dictionary, fs, split, ids, langs, i + 1,
                          m.Set(lang, Entry(args, dictionary, ids.entries[lang], shard)));
    }
  }

  /**
   * On failure the error names the first remaining language, in loop order,
   * whose shard is missing.
   */
  lemma {:induction false} BuildMapNamesFirstMissing(args: Args, dictionary: Dictionary, fs: FileSystem, split: string,
                                                    ids: LangIds, langs: seq<string>, i: nat, m: OrderedDict<string, MaskedLM>)
    requires i <= |langs|
    requires Keyed(ids, langs)
    requires BuildMap(args, dictionary, fs, split, ids, langs, i, m).Err?
    ensures exists j | i <= j < |langs| ::
      && !ShardFound(args, fs, split, langs[j])
      && (forall k | i <= k < j :: ShardFound(args, fs, split, langs[k]))
      && BuildMap(args, dictionary, fs, split, ids, langs, i, m).error
         == DatasetNotFound(LanguageSplit(split, langs[j]), args.data)
    decreases |langs| - i
  {
    var lang := langs[i];
    if ShardFound(args, fs, split, lang) {
      var shard := OpenShard(args, dictionary, fs, split, lang).value;
      BuildMapNamesFirstMissing(args, dictionary, fs, split, ids, langs, i + 1,
                                m.Set(lang, Entry(args, dictionary, ids.entries[lang], shard)));
    } else {
      assert !ShardFound(args, fs, split, langs[i]);
    }
  }

  /**
   * On success, with no language listed twice, the map lists the languages in
   * loop order.
   */
  lemma {:induction false} BuildMapKeys(args: Args, dictionary: Dictionary, fs: FileSystem, split: string,
                                       ids: LangIds, langs: seq<string>, i: nat, m: OrderedDict<string, MaskedLM>)
    requires i <= |langs|
    requires Keyed(ids, langs)
    requires forall j, k | 0 <= j < k < |langs| :: langs[j] != langs[k]
    requires m.keys == langs[..i]
    requires forall j | i <= j < |langs| :: langs[j] !in m.entries
    requires BuildMap(args, dictionary, fs, split, ids, langs, i, m).Ok?
    ensures BuildMap(args, dictionary, fs, split, ids, langs, i, m).value.keys == langs
    decreases |langs| - i
  {
    if i < |langs| {
      var lang := langs[i];
      var shard := OpenShard(args, dictionary, fs, split, lang).value;
      var m' := m.Set(lang, Entry(args, dictionary, ids.entries[lang], shard));
      assert m'.keys == langs[..i + 1];
      forall j | i + 1 <= j < |langs|
        ensures langs[j] !in m'.entries
      {
        assert langs[j] != lang;
      }
      BuildMapContinues(args, dictionary, fs, split, ids, langs, i, m, shard, m');
      BuildMapKeys(args, dictionary, fs, split, ids, langs, i + 1, m');
    } else {
      assert langs[..i] == langs;
    }
  }

  /**
   * On success, with no language listed twice, each remaining language's
   * entry is built over the shard the format rule opens for it, with its own
   * segment id, and the entries of the languages already handled are kept.
   */
  lemma {:induction false} BuildMapEntries(args: Args, dictionary: Dictionary, fs: FileSystem, split: string,
                                          ids: LangIds, langs: seq<string>, i: nat, m: OrderedDict<string, MaskedLM>)
    requires i <= |langs|
    requires Keyed(ids, langs)
    requires forall j, k | 0 <= j < k < |langs| :: langs[j] != langs[k]
    requires forall j | 0 <= j < i :: langs[j] in m.entries
    requires BuildMap(args, dictionary, fs, split, ids, langs, i, m).Ok?
    ensures var r := BuildMap(args, dictionary, fs, split, ids, langs, i, m).value;
      && (forall j | 0 <= j < i :: langs[j] in r.entries && r.entries[langs[j]] == m.entries[langs[j]])
      && forall j | i <= j < |langs| ::
           && OpenShard(args, dictionary, fs, split, langs[j]).Ok?
           && langs[j] in r.entries
           && r.entries[langs[j]]
              == Entry(args, dictionary, ids.entries[langs[j]], OpenShard(args, dictionary, fs, split, langs[j]).value)
    decreases |langs| - i
  {
    if i < |langs| {
      var lang := langs[i];
      var shard := OpenShard(args, dictionary, fs, split, lang).value;
      var m' := m.Set(lang, Entry(args, dictionary, ids.entries[lang], shard));
      BuildMapContinues(args, dictionary, fs, split, ids, langs, i, m, shard, m');
      BuildMapEntries(args, dictionary, fs, split, ids, langs, i + 1, m');
      var r := BuildMap(args, dictionary, fs, split, ids, langs, i + 1, m').value;
      forall j | 0 <= j < i
        ensures r.entries[langs[j]] == m.entries[langs[j]]
      {
        assert langs[j] != lang;
      }
    }
  }

  /**
   * The default key is set only while unset, and then to the first language
   * of the map; once set, no load changes it.
   */
  lemma DefaultKeySetOnce(args: Args, dictionary: Dictionary, ids: LangIds, st: TaskState,
                          split: string, fs: FileSystem)
    requires ids.Valid()
    ensures var key := Load(args, dictionary, ids, st, split, fs).state.defaultKey;
      && (st.defaultKey.Some? ==> key == st.defaultKey)
      && (st.defaultKey.None? && ids.keys != [] ==> key == Some(ids.keys[0]))
      && (st.defaultKey.None? && ids.keys == [] ==> key.None?)
  {
  }

  /**
   * A load succeeds exactly when every language's shard is found in the
   * configured format; a failure names the first language whose shard is
   * missing and leaves the registry as it was.
   */
  lemma LoadFailsOnMissingShard(args: Args, dictionary: Dictionary, ids: LangIds, st: TaskState,
                                split: string, fs: FileSystem)
    requires ids.Valid()
    ensures var o := Load(args, dictionary, ids, st, split, fs);
      && (o.result.Ok? <==> forall i | 0 <= i < |ids.keys| ::
            ShardFound(args, fs, split, ids.keys[i]))
      && (o.result.Err? ==> o.state.datasets == st.datasets)
      && (o.result.Err? ==> exists i | 0 <= i < |ids.keys| ::
            && !ShardFound(args, fs, split, ids.keys[i])
            && (forall k | 0 <= k < i :: ShardFound(args, fs, split, ids.keys[k]))
            && o.result.error == DatasetNotFound(LanguageSplit(split, ids.keys[i]), args.data))
  {
    BuildMapSucceedsIff(args, dictionary, fs, split, ids, ids.keys, 0, Empty());
    if BuildMap(args, dictionary, fs, split, ids, ids.keys, 0, Empty()).Err? {
      BuildMapNamesFirstMissing(args, dictionary, fs, split, ids, ids.keys, 0, Empty());
    }
  }

  /**
   * A successful load writes `datasets[split]` and nothing else: every other
   * split keeps its registered dataset, and none is added or removed.
   */
  lemma LoadTouchesOnlyItsSplit(args: Args, dictionary: Dictionary, ids: LangIds, st: TaskState,
                                split: string, fs: FileSystem)
    requires ids.Valid()
    ensures var o := Load(args, dictionary, ids, st, split, fs);
      && (o.result.Ok? ==> split in o.state.datasets && o.state.datasets[split] == o.result.value)
      && (forall s | s in st.datasets && s != split :: s in o.state.datasets && o.state.datasets[s] == st.datasets[s])
      && (forall s | s in o.state.datasets && s != split :: s in st.datasets)
  {
  }

  /**
   * A loop over the whole language map that runs to the end lists the
   * languages in the map's order, and holds for each one the entry built over
   * the shard opened for it.
   */
  lemma LoadedMapIsPerLanguageEntries(args: Args, dictionary: Dictionary, ids: LangIds, split: string, fs: FileSystem)
    requires ids.Valid()
    requires BuildMap(args, dictionary, fs, split, ids, ids.keys, 0, Empty()).Ok?
    ensures var m := BuildMap(args, dictionary, fs, split, ids, ids.keys, 0, Empty()).value;
      && m.keys == ids.keys
      && forall lang | lang in ids.entries ::
           && lang in m.entries
           && OpenShard(args, dictionary, fs, split, lang).Ok?
           && m.entries[lang] == Entry(args, dictionary, ids.entries[lang], OpenShard(args, dictionary, fs, split, lang).value)
  {
    var m := BuildMap(args, dictionary, fs, split, ids, ids.keys, 0, Empty()).value;
    DistinctIffNoRepeats(ids.keys);
    assert m.keys == ids.keys by {
      assert Empty<string, MaskedLM>().keys == ids.keys[..0];
      BuildMapKeys(args, dictionary, fs, split, ids, ids.keys, 0, Empty());
    }
    forall lang | lang in ids.entries
      ensures lang in m.entries
      ensures OpenShard(args, dictionary, fs, split, lang).Ok?
      ensures m.entries[lang] == Entry(args, dictionary, ids.entries[lang], OpenShard(args, dictionary, fs, split, lang).value)
    {
      var i :| 0 <= i < |ids.keys| && ids.keys[i] == lang;
      BuildMapEntries(args, dictionary, fs, split, ids, ids.keys, 0, Empty());
    }
  }

  /**
   * What a successful load registers: one entry per language, in the order of
   * the language map, each over the shard at `<data>/<split>.<lang>` opened in
   * the configured format, cut into blocks of `tokensPerSample - 1` tokens,
   * with end-of-sentence as classification and separator token, no sentence
   * pairs and the language's own id as segment id; the merged dataset falls
   * back to the task's default key.
   */
  lemma LoadRegistersEveryLanguage(args: Args, dictionary: Dictionary, ids: LangIds, st: TaskState,
                                   split: string, fs: FileSystem)
    requires ids.Valid()
    requires Load(args, dictionary, ids, st, split, fs).result.Ok?
    ensures var o := Load(args, dictionary, ids, st, split, fs);
      var merged := o.result.value;
      && merged.datasets.keys == ids.keys
      && merged.defaultKey == o.state.defaultKey
      && forall lang | lang in ids.entries ::
           && lang in merged.datasets.entries
           && var e := merged.datasets.entries[lang];
           && e.segmentId == ids.entries[lang]
           && e.dataset.blockSize == args.tokensPerSample - 1
           && e.dataset.dataset.path == ShardPath(args.data, split, lang)
           && (e.dataset.dataset.RawText? <==> args.rawText)
           && (!args.rawText ==> (e.dataset.dataset.Indexed? <==> args.lazyLoad))
           && e.classifTokenIdx == dictionary.eos && e.sepTokenIdx == dictionary.eos
           && !e.hasPairs
           && e.shuffle == args.shuffle.GetOr(false)
           && e.seed == args.seed
  {
    LoadedMapIsPerLanguageEntries(args, dictionary, ids, split, fs);
  }


  /**
   * A repeated load of the same split over the same files gives the same
   * result and leaves the same state (see `LoadIgnoresRegistry` for why that
   * result is rebuilt rather than cached).
   */
  lemma LoadIsIdempotent(args: Args, dictionary: Dictionary, ids: LangIds, st: TaskState,
                         split: string, fs: FileSystem)
    requires ids.Valid()
    ensures var o := Load(args, dictionary, ids, st, split, fs);
      Load(args, dictionary, ids, o.state, split, fs) == o
  {
    var o := Load(args, dictionary, ids, st, split, fs);
    if o.result.Ok? {
      assert o.state.datasets[split := o.result.value] == o.state.datasets;
    }
  }

  /**
   * There is no cache check: what a load returns does not depend on what is
   * already registered. Whatever the registry holds, the dataset is rebuilt
   * over the current files and overwrites `datasets[split]`, and a split
   * registered earlier whose shard has since gone missing fails to reload.
   */
  lemma LoadIgnoresRegistry(args: Args, dictionary: Dictionary, ids: LangIds, st: TaskState,
                            split: string, fs: FileSystem, datasets: map<string, MultiCorpus>)
    requires ids.Valid()
    ensures var o := Load(args, dictionary, ids, st, split, fs);
      && Load(args, dictionary, ids, TaskState(st.defaultKey, datasets), split, fs).result == o.result
      && (o.result.Ok? ==> o.state.datasets == st.datasets[split := o.result.value])
      && (var stale := exists i | 0 <= i < |ids.keys| :: !ShardFound(args, fs, split, ids.keys[i]);
          split in st.datasets && stale ==> o.result.Err? && o.state.datasets[split] == st.datasets[split])
  {
    LoadFailsOnMissingShard(args, dictionary, ids, st, split, fs);
  }

  // ---------------------------------------------------------------------------
  // Properties of a sequence of loads

  /** Once the default key is set, no later load, for any split, changes it. */
  lemma {:induction false} DefaultKeyNeverChanges(args: Args, dictionary: Dictionary, ids: LangIds,
                                                 st: TaskState, requests: seq<Request>)
    requires ids.Valid()
    requires st.defaultKey.Some?
    ensures Replay(args, dictionary, ids, st, requests).defaultKey == st.defaultKey
    decreases |requests|
  {
    if requests != [] {
      var next := Load(args, dictionary, ids, st, requests[0].split, requests[0].fs).state;
      DefaultKeyNeverChanges(args, dictionary, ids, next, requests[1..]);
    }
  }

  /**
   * Loads for other splits leave a split's registered dataset untouched:
   * loading `valid` does not alter `train`.
   */
  lemma {:induction false} OtherSplitsKeepTheirDataset(args: Args, dictionary: Dictionary, ids: LangIds,
                                                      st: TaskState, requests: seq<Request>, split: string)
    requires ids.Valid()
    requires split in st.datasets
    requires forall i | 0 <= i < |requests| :: requests[i].split != split
    ensures var after := Replay(args, dictionary, ids, st, requests);
      split in after.datasets && after.datasets[split] == st.datasets[split]
    decreases |requests|
  {
    if requests != [] {
      var next := Load(args, dictionary, ids, st, requests[0].split, requests[0].fs).state;
      LoadTouchesOnlyItsSplit(args, dictionary, ids, st, requests[0].split, requests[0].fs);
      assert forall i | 0 <= i < |requests[1..]| :: requests[1..][i] == requests[i + 1];
      OtherSplitsKeepTheirDataset(args, dictionary, ids, next, requests[1..], split);
    }
  }

  // ---------------------------------------------------------------------------
  // The task object

  /** The first listed code is the first key of the language map. */
  lemma FirstCodeIsFirstKey(languages: string)
    ensures IdsOf(Pieces(languages)).keys != []
    ensures IdsOf(Pieces(languages)).keys[0] == Pieces(languages)[0]
  {
    var ps := Pieces(languages);
    var d := IdsOf(ps);
    IdsAreLastOccurrences(ps);
    IdsKeepFirstOccurrenceOrder(ps);
    assert ps[0] in d.entries;
    var j :| 0 <= j < |d.keys| && d.keys[j] == ps[0];
    assert FirstIndex(ps, d.keys[j]) == 0;
    assert j == 0;
  }

  /**
   * Starting without a default key, the first load fixes it to the first key
   * of the language map for good, whatever splits are requested and whether
   * or not their shards exist.
   */
  lemma FirstLoadFixesDefaultKey(args: Args, dictionary: Dictionary, ids: LangIds, requests: seq<Request>)
    requires ids.Valid()
    requires ids.keys != [] && requests != []
    ensures Replay(args, dictionary, ids, TaskState(None, map[]), requests).defaultKey == Some(ids.keys[0])
  {
    var st := TaskState(None, map[]);
    DefaultKeySetOnce(args, dictionary, ids, st, requests[0].split, requests[0].fs);
    var first := Load(args, dictionary, ids, st, requests[0].split, requests[0].fs).state;
    DefaultKeyNeverChanges(args, dictionary, ids, first, requests[1..]);
  }

  /** The default key of a task is the first code of its language option. */
  lemma DefaultKeyIsFirstListedLanguage(args: Args, dictionary: Dictionary, requests: seq<Request>)
    requires requests != []
    ensures var ids := IdsOf(Pieces(args.monolingualLangs));
      Replay(args, dictionary, ids, TaskState(None, map[]), requests).defaultKey
        == Some(Pieces(args.monolingualLangs)[0])
  {
    FirstCodeIsFirstKey(args.monolingualLangs);
    FirstLoadFixesDefaultKey(args, dictionary, IdsOf(Pieces(args.monolingualLangs)), requests);
  }

  /**
   * The loop of `load_dataset` over the language map: the default key is set
   * to the first language if still unset, then each language's shard is
   * opened and its entry added, until a shard is missing.
   */
  method LoadLanguages(args: Args, dictionary: Dictionary, ids: LangIds, defaultKey: Option<string>,
                       split: string, fs: FileSystem)
    returns (key: Option<string>, r: Result<OrderedDict<string, MaskedLM>, LoadError>)
    requires Keyed(ids, ids.keys)
    ensures key == DefaultKeyAfter(defaultKey, ids.keys)
    ensures r == BuildMap(args, dictionary, fs, split, ids, ids.keys, 0, Empty())
  {
    var langs := ids.keys;
    key := defaultKey;
    var datasetMap := Empty<string, MaskedLM>();
    var i := 0;
    ghost var target := BuildMap(args, dictionary, fs, split, ids, langs, 0, datasetMap);
    while i < |langs|
      invariant 0 <= i <= |langs|
      invariant key == if i == 0 then defaultKey else DefaultKeyAfter(defaultKey, langs)
      invariant BuildMap(args, dictionary, fs, split, ids, langs, i, datasetMap) == target
    {
      var lang := langs[i];
      if key == None {
        key := Some(lang);
      }
      var found := OpenShard(args, dictionary, fs, split, lang);
      if found.Err? {
        BuildMapStops(args, dictionary, fs, split, ids, langs, i, datasetMap);
        r := Err(found.error);
        return;
      }
      var shard := found.value;
      var next := datasetMap.Set(lang, Entry(args, dictionary, ids.entries[lang], shard));
      BuildMapContinues(args, dictionary, fs, split, ids, langs, i, datasetMap, shard, next);
      datasetMap := next;
      i := i + 1;
    }
    assert BuildMap(args, dictionary, fs, split, ids, langs, i, datasetMap) == Ok(datasetMap);
    r := Ok(datasetMap);
  }

  /** `CrossLingualLMTask`: the options, the vocabulary, the language map and the loaded splits. */
  class CrossLingualLMTask {
    const args: Args
    const dictionary: Dictionary
    const seed: int
    const distributedWorldSize: int
    const langs2id: LangIds
    var defaultKey: Option<string>
    var datasets: map<string, MultiCorpus>

    /** The copied options agree with `args`, and the language map is a well-formed dictionary. */
    ghost predicate Valid() {
      && seed == args.seed
      && distributedWorldSize == args.distributedWorldSize
      && langs2id.Valid()
    }

    /**
     * `__init__`: store the options and vocabulary, build the language map
     * from the language option, no default key yet.
     */
    constructor (args: Args, dictionary: Dictionary)
      ensures Valid()
      ensures this.args == args && this.dictionary == dictionary
      ensures langs2id == IdsOf(Pieces(args.monolingualLangs))
      ensures defaultKey == None && datasets == map[]
    {
      this.args := args;
      this.dictionary := dictionary;
      seed := args.seed;
      distributedWorldSize := args.distributedWorldSize;
      var ids := LangToId(args.monolingualLangs);
      langs2id := ids;
      defaultKey := None;
      datasets := map[];
    }

    /**
     * `load_dataset(split)`: returns the dataset it registered under `split`,
     * or the error it raised.
     */
    method LoadDataset(split: string, fs: FileSystem) returns (r: Result<MultiCorpus, LoadError>)
      requires Valid()
      modifies this
      ensures var o := Load(args, dictionary, langs2id, TaskState(old(defaultKey), old(datasets)), split, fs);
        && defaultKey == o.state.defaultKey
        && datasets == o.state.datasets
        && r == o.result
    {
      assert Keyed(langs2id, langs2id.keys);
      var key, built := LoadLanguages(args, dictionary, langs2id, defaultKey, split, fs);
      defaultKey := key;
      match built
      case Err(e) =>
        LoadOfError(args, dictionary, langs2id, TaskState(old(defaultKey), datasets), split, fs, e);
        r := Err(e);
      case Ok(datasetMap) =>
        LoadOfMap(args, dictionary, langs2id, TaskState(old(defaultKey), datasets), split, fs, datasetMap);
        var merged := MultiCorpus(datasetMap, defaultKey);
        datasets := datasets[split := merged];
        r := Ok(merged);
    }
  }
}
