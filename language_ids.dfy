/**
 * The language-code-to-id map that `CrossLingualLMTask._lang_to_id` builds from
 * the `--monolingual-langs` option. The ids are the segment labels of
 * cross-lingual language-model training.
 */
module LanguageIds {
  import opened Strings
  import opened OrderedDicts

  /** Language code to segment id, keys in the iteration order of the source's dict. */
  type LangIds = OrderedDict<string, int>

  /** `[l.strip() for l in raw]`. */
  function StripAll(raw: seq<string>): (ps: seq<string>)
    ensures |ps| == |raw|
  {
    if raw == [] then [] else [Strip(raw[0])] + StripAll(raw[1..])
  }

  /** `StripAll` of three pieces. */
  lemma StripAllThree(x: string, y: string, z: string)
    ensures StripAll([x, y, z]) == [Strip(x), Strip(y), Strip(z)]
  {
    assert [x, y, z][1..] == [y, z];
    assert [y, z][1..] == [z];
    assert [z][1..] == [];
    assert StripAll([z]) == [Strip(z)];
    assert StripAll([y, z]) == [Strip(y), Strip(z)];
  }

  /** Each code is the strip of the raw piece at the same position. */
  lemma {:induction false} StripAllAt(raw: seq<string>, i: int)
    requires 0 <= i < |raw|
    ensures StripAll(raw)[i] == Strip(raw[i])
  {
    if i > 0 {
      StripAllAt(raw[1..], i - 1);
    }
  }

  /** `[l.strip() for l in languages.split(',')]`: one code per comma, plus one. */
  function Pieces(languages: string): (ps: seq<string>)
    ensures |ps| == Count(languages, ',') + 1
  {
    StripAll(Split(languages, ','))
  }

  /** Every code is free of commas and neither starts nor ends with whitespace. */
  lemma CodesAreUnpadded(languages: string)
    ensures forall c | c in Pieces(languages) :: ',' !in c
    ensures forall c | c in Pieces(languages) :: Unpadded(c)
  {
    var raw, ps := Split(languages, ','), Pieces(languages);
    forall c | c in ps
      ensures ',' !in c
    {
      var i :| 0 <= i < |ps| && ps[i] == c;
      StripAllAt(raw, i);
      StripAddsNothing(raw[i], ',');
    }
    forall c | c in ps
      ensures Unpadded(c)
    {
      var i :| 0 <= i < |ps| && ps[i] == c;
      StripAllAt(raw, i);
    }
  }

  /**
   * The dict that `for id, lang in enumerate(ps): lang2id[lang] = id` leaves
   * behind, starting from `{}`.
   */
  function IdsOf(ps: seq<string>): (d: LangIds)
    ensures d.Valid()
    decreases |ps|
  {
    if ps == [] then Empty()
    else
      var d0 := IdsOf(ps[..|ps| - 1]);
      SetKeepsOrder(d0, ps[|ps| - 1], |ps| - 1);
      d0.Set(ps[|ps| - 1], |ps| - 1)
  }

  /** `_lang_to_id`: split, strip, and give each code its position. */
  method LangToId(languages: string) returns (lang2id: LangIds)
    ensures lang2id == IdsOf(Pieces(languages))
  {
    lang2id := Empty();
    var langs := Pieces(languages);
    for id := 0 to |langs|
      invariant lang2id == IdsOf(langs[..id])
    {
      IdsOfPrefix(langs, id);
      lang2id := lang2id.Set(langs[id], id);
    }
    assert langs[..|langs|] == langs;
  }

  /** One more code of the list sets that code to its position. */
  lemma IdsOfPrefix(ps: seq<string>, i: nat)
    requires i < |ps|
    ensures IdsOf(ps[..i + 1]) == IdsOf(ps[..i]).Set(ps[i], i)
  {
    assert ps[..i + 1][..i] == ps[..i];
  }

  /** `v` is the position of the last occurrence of `k` in `ps`. */
  predicate IsLastIndex(ps: seq<string>, k: string, v: int) {
    && 0 <= v < |ps|
    && ps[v] == k
    && forall j :: v < j < |ps| ==> ps[j] != k
  }

  /** Position of the first occurrence of `k` in `ps`. */
  function FirstIndex(ps: seq<string>, k: string): (i: nat)
    requires k in ps
    ensures i < |ps| && ps[i] == k
    ensures forall j :: 0 <= j < i ==> ps[j] != k
  {
    if ps[0] == k then 0 else 1 + FirstIndex(ps[1..], k)
  }

  /**
   * The keys are exactly the pieces, and each key's id is the position of its
   * last occurrence: a later duplicate overwrites an earlier one, so every id
   * lies in `[0, |ps|)`.
   */
  lemma {:induction false} IdsAreLastOccurrences(ps: seq<string>)
    ensures forall k :: k in IdsOf(ps).entries <==> k in ps
    ensures forall k | k in IdsOf(ps).entries :: IsLastIndex(ps, k, IdsOf(ps).entries[k])
    decreases |ps|
  {
    if ps != [] {
      var n := |ps|;
      var init, last := ps[..n - 1], ps[n - 1];
      IdsAreLastOccurrences(init);
      InitThenLast(ps);
      var d0, d := IdsOf(init), IdsOf(ps);
      forall k | k in d.entries
        ensures IsLastIndex(ps, k, d.entries[k])
      {
        if k != last {
          LastIndexSurvivesAppend(init, last, k, d0.entries[k]);
        }
      }
    }
  }

  /** Appending a different code does not move a code's last occurrence. */
  lemma LastIndexSurvivesAppend(ps: seq<string>, x: string, k: string, v: int)
    requires IsLastIndex(ps, k, v) && k != x
    ensures IsLastIndex(ps + [x], k, v)
  {
  }

  /** First position of a key of a prefix is unchanged by appending. */
  lemma FirstIndexAppend(ps: seq<string>, x: string, k: string)
    requires k in ps
    ensures k in ps + [x] && FirstIndex(ps + [x], k) == FirstIndex(ps, k)
  {
    var i, i' := FirstIndex(ps, k), FirstIndex(ps + [x], k);
    assert (ps + [x])[i] == k;
    assert i' <= i;
    assert ps[i'] == k;
  }

  /** `keys` are codes of `ps`, listed in the order in which they first appear there. */
  predicate InFirstSeenOrder(ps: seq<string>, keys: seq<string>) {
    && (forall i | 0 <= i < |keys| :: keys[i] in ps)
    && (forall i, j | 0 <= i < j < |keys| :: FirstIndex(ps, keys[i]) < FirstIndex(ps, keys[j]))
  }

  /** Appending a code keeps the first-seen order, a new code going last. */
  lemma AppendKeepsFirstSeenOrder(ps: seq<string>, keys: seq<string>, x: string)
    requires InFirstSeenOrder(ps, keys)
    ensures InFirstSeenOrder(ps + [x], if x in ps then keys else keys + [x])
  {
    var ps', keys' := ps + [x], if x in ps then keys else keys + [x];
    forall k | k in keys
      ensures FirstIndex(ps', k) == FirstIndex(ps, k) < |ps|
    {
      FirstIndexAppend(ps, x, k);
    }
    forall i, j | 0 <= i < j < |keys'|
      ensures FirstIndex(ps', keys'[i]) < FirstIndex(ps', keys'[j])
    {
      assert keys'[i] == keys[i];
      if j < |keys| {
        assert keys'[j] == keys[j];
      } else {
        assert FirstIndex(ps', x) == |ps|;
      }
    }
  }

  /**
   * The keys iterate in the order in which the codes first appear in the list
   * (this order drives `load_dataset`'s loop and its default key).
   */
  lemma {:induction false} IdsKeepFirstOccurrenceOrder(ps: seq<string>)
    ensures InFirstSeenOrder(ps, IdsOf(ps).keys)
    decreases |ps|
  {
    if ps != [] {
      var n := |ps|;
      var init, last := ps[..n - 1], ps[n - 1];
      InitThenLast(ps);
      IdsKeepFirstOccurrenceOrder(init);
      IdsAreLastOccurrences(init);
      AppendKeepsFirstSeenOrder(init, IdsOf(init).keys, last);
    }
  }

  /** With no repeated code, the ids are `0 .. n-1` in the order of the list. */
  lemma {:induction false} DistinctCodesGetPositions(ps: seq<string>)
    requires Distinct(ps)
    ensures IdsOf(ps).keys == ps
    ensures forall i :: 0 <= i < |ps| ==> IdsOf(ps).entries[ps[i]] == i
    decreases |ps|
  {
    if ps != [] {
      var n := |ps|;
      var init, last := ps[..n - 1], ps[n - 1];
      InitThenLast(ps);
      assert Distinct(init);
      DistinctCodesGetPositions(init);
      IdsAreLastOccurrences(init);
      var d0 := IdsOf(init);
      assert IdsOf(ps) == d0.Set(last, n - 1);
      assert last !in d0.entries;
      forall i | 0 <= i < n - 1
        ensures IdsOf(ps).entries[ps[i]] == i
      {
        assert ps[i] == init[i] != last;
        assert d0.entries[init[i]] == i;
      }
    }
  }

  /** Appending one element keeps a sequence repetition-free exactly when it is new. */
  lemma DistinctAppend(s: seq<string>, x: string)
    ensures Distinct(s + [x]) <==> Distinct(s) && x !in s
  {
    assert (s + [x])[..|s|] == s;
  }

  /**
   * The map has one entry per code exactly when no code is repeated; a
   * duplicate leaves fewer entries than pieces.
   */
  lemma {:induction false} DuplicatesShrinkTheMap(ps: seq<string>)
    ensures |IdsOf(ps).entries| <= |ps|
    ensures |IdsOf(ps).entries| == |ps| <==> Distinct(ps)
    decreases |ps|
  {
    SizeIsKeyCount(IdsOf(ps));
    if ps != [] {
      var n := |ps|;
      var init, last := ps[..n - 1], ps[n - 1];
      InitThenLast(ps);
      DuplicatesShrinkTheMap(init);
      SizeIsKeyCount(IdsOf(init));
      IdsAreLastOccurrences(init);
      DistinctAppend(init, last);
    }
  }

  /**
   * For the option string itself: every stripped comma-separated piece is a
   * code of the map, and every code is the stripped piece at its id, which is a
   * piece position.
   */
  lemma LangIdsFromOption(languages: string)
    ensures var raw, d := Split(languages, ','), IdsOf(Pieces(languages));
      && (forall i | 0 <= i < |raw| :: Strip(raw[i]) in d.entries)
      && (forall k | k in d.entries :: 0 <= d.entries[k] < |raw| && Strip(raw[d.entries[k]]) == k)
  {
    var raw, ps := Split(languages, ','), Pieces(languages);
    var d := IdsOf(ps);
    IdsAreLastOccurrences(ps);
    forall i | 0 <= i < |raw|
      ensures Strip(raw[i]) in d.entries
    {
      StripAllAt(raw, i);
    }
    forall k | k in d.entries
      ensures 0 <= d.entries[k] < |raw| && Strip(raw[d.entries[k]]) == k
    {
      assert IsLastIndex(ps, k, d.entries[k]);
      StripAllAt(raw, d.entries[k]);
    }
  }

  /** The codes of an option written as comma-joined pieces are those pieces, stripped. */
  lemma PiecesOfJoin(raw: seq<string>, languages: string)
    requires |raw| >= 1 && forall i :: 0 <= i < |raw| ==> ',' !in raw[i]
    requires languages == Join(raw, ',')
    ensures Pieces(languages) == StripAll(raw)
  {
    SplitJoin(raw, ',');
  }

  /** The default option `"en"` gives `{en: 0}`. */
  lemma DefaultLanguage(languages: string)
    requires languages == "en"
    ensures IdsOf(Pieces(languages)) == OrderedDict(["en"], map["en" := 0])
  {
    PiecesOfJoin(["en"], languages);
    StripUnpadded("en");
    var ps := Pieces(languages);
    assert ps == ["en"];
    assert ps[..0] == [];
  }

  /** `"a, b,c"` splits into the codes `a`, `b` and `c`. */
  lemma PiecesOfThree(a: string, b: string, c: string, languages: string)
    requires ',' !in a && ',' !in b && ',' !in c
    requires Unpadded(a) && Unpadded(b) && Unpadded(c)
    requires languages == a + [',', ' '] + b + [','] + c
    ensures Pieces(languages) == [a, b, c]
  {
    var b' := [' '] + b;
    assert ',' !in b';
    JoinThree(a, b', c, ',');
    assert Join([a, b', c], ',') == languages;
    PiecesOfJoin([a, b', c], languages);
    StripAllThree(a, b', c);
    StripLeadingSpace(' ', b);
    StripUnpadded(a);
    StripUnpadded(b);
    StripUnpadded(c);
  }

  /**
   * Three different codes, the second written after a blank as in `"en, fr,de"`,
   * get the ids 0, 1 and 2 in the order written.
   */
  lemma ThreeLanguages(a: string, b: string, c: string, languages: string)
    requires ',' !in a && ',' !in b && ',' !in c
    requires Unpadded(a) && Unpadded(b) && Unpadded(c)
    requires a != b && b != c && a != c
    requires languages == a + [',', ' '] + b + [','] + c
    ensures IdsOf(Pieces(languages)) == OrderedDict([a, b, c], map[a := 0, b := 1, c := 2])
  {
    PiecesOfThree(a, b, c, languages);
    IdsOfThree(a, b, c);
  }

  /** A single code gets id 0. */
  lemma IdsOfOne(a: string)
    ensures IdsOf([a]) == OrderedDict([a], map[a := 0])
  {
    assert [a][..0] == [];
  }

  /** Two different codes get ids 0 and 1. */
  lemma IdsOfTwo(a: string, b: string)
    requires a != b
    ensures IdsOf([a, b]) == OrderedDict([a, b], map[a := 0, b := 1])
  {
    IdsOfOne(a);
    assert [a, b][..1] == [a];
  }

  /** Three different codes get their positions as ids. */
  lemma IdsOfThree(a: string, b: string, c: string)
    requires a != b && b != c && a != c
    ensures IdsOf([a, b, c]) == OrderedDict([a, b, c], map[a := 0, b := 1, c := 2])
  {
    IdsOfTwo(a, b);
    assert [a, b, c][..2] == [a, b];
    assert [a, b] + [c] == [a, b, c];
  }

  /** `"a,b,a"` splits into the codes `a`, `b` and `a`. */
  lemma PiecesOfRepeat(a: string, b: string, languages: string)
    requires ',' !in a && ',' !in b
    requires Unpadded(a) && Unpadded(b)
    requires languages == a + [','] + b + [','] + a
    ensures Pieces(languages) == [a, b, a]
  {
    JoinThree(a, b, a, ',');
    PiecesOfJoin([a, b, a], languages);
    StripAllThree(a, b, a);
    StripUnpadded(a);
    StripUnpadded(b);
  }

  /**
   * A code listed again after another, as in `"en,fr,en"`, keeps its first
   * place but takes its last position as id: `{en: 2, fr: 1}`, and id 0 is no
   * longer used.
   */
  lemma RepeatedLanguage(a: string, b: string, languages: string)
    requires ',' !in a && ',' !in b
    requires Unpadded(a) && Unpadded(b)
    requires a != b
    requires languages == a + [','] + b + [','] + a
    ensures IdsOf(Pieces(languages)) == OrderedDict([a, b], map[a := 2, b := 1])
  {
    PiecesOfRepeat(a, b, languages);
    IdsOfRepeat(a, b);
  }

  /** In `[a, b, a]` the code `a` keeps its first place and takes id 2. */
  lemma IdsOfRepeat(a: string, b: string)
    requires a != b
    ensures IdsOf([a, b, a]) == OrderedDict([a, b], map[a := 2, b := 1])
  {
    IdsOfTwo(a, b);
    assert [a, b, a][..2] == [a, b];
    assert map[a := 0, b := 1][a := 2] == map[a := 2, b := 1];
  }
}
