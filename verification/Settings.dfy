/**
 Layered settings: `_deep_merge` and the migration of the legacy prompt settings
 (src/core/config.py), on JSON values.
 */
module Settings {
  import opened Options

  datatype Json =
    | Null
    | Bool(flag: bool)
    | Num(number: real)
    | Str(text: string)
    | Arr(items: seq<Json>)
    | Obj(fields: map<string, Json>)

  type Fields = map<string, Json>

  // ---------- Merging ----------

  /** A value laid over another: objects merge key by key, anything else replaces. */
  function Overlay(base: Json, over: Json): Json
    decreases over
  {
    if base.Obj? && over.Obj? then
      Obj(map k | k in base.fields.Keys + over.fields.Keys ::
        if k !in over.fields then base.fields[k]
        else if k !in base.fields then over.fields[k]
        else Overlay(base.fields[k], over.fields[k]))
    else over
  }

  /** `_deep_merge` of two dictionaries. */
  function Merge(base: Fields, over: Fields): Fields {
    Overlay(Obj(base), Obj(over)).fields
  }

  /** What a merged object holds at a key. */
  function Merged(base: Fields, over: Fields, k: string): Json
    requires k in base || k in over
  {
    if k !in over then base[k] else if k !in base then over[k] else Overlay(base[k], over[k])
  }

  lemma MergeAt(base: Fields, over: Fields, k: string)
    requires k in base || k in over
    ensures k in Merge(base, over) && Merge(base, over)[k] == Merged(base, over, k)
    ensures Overlay(Obj(base), Obj(over)) == Obj(Merge(base, over))
  {}

  lemma MergeByKeys(base: Fields, over: Fields, m: Fields)
    requires m.Keys == base.Keys + over.Keys
    requires forall k <- m.Keys :: m[k] == Merged(base, over, k)
    ensures m == Merge(base, over)
  {
    forall k | k in m ensures m[k] == Merge(base, over)[k] { MergeAt(base, over, k); }
  }

  function Only(m: Fields, keys: set<string>): Fields {
    map k <- m.Keys | k in keys :: m[k]
  }

  lemma MergeOneMore(base: Fields, over: Fields, done: set<string>, key: string)
    requires key in over && key !in done
    ensures var sofar := Merge(base, Only(over, done));
            && (key in sofar <==> key in base)
            && (key in sofar ==> sofar[key] == base[key])
            && Merge(base, Only(over, done + {key})) == sofar[key := Merged(base, over, key)]
  {
    var sofar := Merge(base, Only(over, done));
    var next := sofar[key := Merged(base, over, key)];
    if key in base { MergeAt(base, Only(over, done), key); }
    forall k | k in next ensures next[k] == Merged(base, Only(over, done + {key}), k) {
      if k != key { MergeAt(base, Only(over, done), k); }
    }
    MergeByKeys(base, Only(over, done + {key}), next);
  }

  /** The loop of `_deep_merge`: a copy of the base, overwritten item by item. */
  method DeepMerge(base: Fields, over: Fields) returns (merged: Fields)
    ensures merged == Merge(base, over)
    decreases Obj(over), 0
  {
    merged := base;
    var done: set<string> := {};
    assert Only(over, done) == map[];
    while over.Keys - done != {}
      invariant done <= over.Keys
      invariant merged == Merge(base, Only(over, done))
      decreases over.Keys - done
    {
      var key :| key in over.Keys - done;
      MergeOneMore(base, over, done, key);
      var value := over[key];
      if key in merged {
        value := MergeItem(merged[key], over[key]);
      }
      merged := merged[key := value];
      done := done + {key};
    }
    forall k | k in over ensures k in done { assert k !in over.Keys - done; }
    assert Only(over, done) == over;
  }

  /** The body of the loop for a key that is already there. */
  method MergeItem(current: Json, value: Json) returns (item: Json)
    ensures item == Overlay(current, value)
    decreases value, 1
  {
    if value.Obj? && current.Obj? {
      assert Obj(value.fields) == value;
      var inner := DeepMerge(current.fields, value.fields);
      MergeOfObjects(current, value);
      return Obj(inner);
    }
    return value;
  }

  lemma MergeOfObjects(base: Json, over: Json)
    requires base.Obj? && over.Obj?
    ensures Obj(Merge(base.fields, over.fields)) == Overlay(base, over)
  {}

  // ---------- What a merge means, path by path ----------

  /** The value found at a path, be it a leaf or an object. */
  function ValueAt(j: Json, path: seq<string>): Option<Json>
    decreases |path|
  {
    if path == [] then Some(j)
    else if j.Obj? && path[0] in j.fields then ValueAt(j.fields[path[0]], path[1..])
    else None
  }

  /** The value says something about the path: it has a value there, or a leaf on the way. */
  predicate Decides(j: Json, path: seq<string>)
    decreases |path|
  {
    path == [] || !j.Obj? || (path[0] in j.fields && Decides(j.fields[path[0]], path[1..]))
  }

  lemma {:induction false} UndecidedHasNoValue(j: Json, path: seq<string>)
    requires !Decides(j, path)
    ensures ValueAt(j, path) == None
    decreases |path|
  {
    if path != [] && j.Obj? && path[0] in j.fields {
      UndecidedHasNoValue(j.fields[path[0]], path[1..]);
    }
  }

  ghost predicate BothObjects(base: Option<Json>, over: Option<Json>) {
    base.Some? && base.value.Obj? && over.Some? && over.value.Obj?
  }

  /**
   At every path the override wins wherever it says anything, and the base speaks everywhere else.
   Only where both have an object does neither win: there the result is an object with the keys of both.
   */
  lemma {:induction false} OverrideWinsPathwise(base: Json, over: Json, path: seq<string>)
    ensures var merged, b, o := ValueAt(Overlay(base, over), path), ValueAt(base, path), ValueAt(over, path);
            && (!Decides(over, path) ==> merged == b)
            && (Decides(over, path) && !BothObjects(b, o) ==> merged == o)
            && (Decides(over, path) && BothObjects(b, o) ==>
                  merged.Some? && merged.value.Obj?
                  && merged.value.fields.Keys == b.value.fields.Keys + o.value.fields.Keys)
    decreases |path|
  {
    if path != [] && over.Obj? {
      if base.Obj? && path[0] in base.fields && path[0] in over.fields {
        OverrideWinsPathwise(base.fields[path[0]], over.fields[path[0]], path[1..]);
      }
      if !Decides(over, path) {
        UndecidedHasNoValue(over, path);
      }
    }
  }

  // ---------- Laws of the merge ----------

  lemma MergeIdentity(a: Fields)
    ensures Merge(a, map[]) == a && Merge(map[], a) == a
  {}

  /** Applying the same override twice changes nothing more. */
  lemma {:induction false} OverlayTwice(a: Json, b: Json)
    ensures Overlay(Overlay(a, b), b) == Overlay(a, b)
    decreases b
  {
    if a.Obj? && b.Obj? {
      var once := Overlay(a, b);
      forall k | k in once.fields
        ensures Overlay(once, b).fields[k] == once.fields[k]
      {
        if k in b.fields {
          if k in a.fields {
            OverlayTwice(a.fields[k], b.fields[k]);
          } else {
            OverlayTwice(b.fields[k], b.fields[k]);
            OverlaySelf(b.fields[k]);
          }
        }
      }
      assert Overlay(once, b).fields == once.fields;
    } else if b.Obj? {
      OverlaySelf(b);
    }
  }

  lemma {:induction false} OverlaySelf(a: Json)
    ensures Overlay(a, a) == a
    decreases a
  {
    if a.Obj? {
      forall k | k in a.fields
        ensures Overlay(a, a).fields[k] == a.fields[k]
      {
        OverlaySelf(a.fields[k]);
      }
      assert Overlay(a, a).fields == a.fields;
    }
  }

  /** The override leaves no key of the base standing on its own. */
  predicate Covers(over: Json, base: Json)
    decreases over
  {
    base.Obj? && over.Obj? ==>
      forall k <- base.fields.Keys :: k in over.fields && Covers(over.fields[k], base.fields[k])
  }

  lemma {:induction false} ReplacesIffCovers(base: Json, over: Json)
    ensures Overlay(base, over) == over <==> Covers(over, base)
    decreases over
  {
    if base.Obj? && over.Obj? {
      var merged := Overlay(base, over);
      forall k | k in base.fields && k in over.fields
        ensures merged.fields[k] == over.fields[k] <==> Covers(over.fields[k], base.fields[k])
      {
        ReplacesIffCovers(base.fields[k], over.fields[k]);
      }
      if Covers(over, base) {
        assert merged.fields == over.fields;
      } else {
        var k :| k in base.fields && !(k in over.fields && Covers(over.fields[k], base.fields[k]));
        assert k in merged.fields;
        assert merged.fields != over.fields;
      }
    }
  }

  /** The override says nothing the base does not already say. */
  predicate Redundant(over: Json, base: Json)
    decreases over
  {
    if base.Obj? && over.Obj?
    then forall k <- over.fields.Keys :: k in base.fields && Redundant(over.fields[k], base.fields[k])
    else over == base
  }

  lemma {:induction false} KeepsIffRedundant(base: Json, over: Json)
    ensures Overlay(base, over) == base <==> Redundant(over, base)
    decreases over
  {
    if base.Obj? && over.Obj? {
      var merged := Overlay(base, over);
      forall k | k in base.fields && k in over.fields
        ensures merged.fields[k] == base.fields[k] <==> Redundant(over.fields[k], base.fields[k])
      {
        KeepsIffRedundant(base.fields[k], over.fields[k]);
      }
      if Redundant(over, base) {
        assert merged.fields == base.fields;
      } else {
        var k :| k in over.fields && !(k in base.fields && Redundant(over.fields[k], base.fields[k]));
        assert k in merged.fields;
        assert merged.fields != base.fields;
      }
    }
  }

  /**
   The shape under which three layers may be merged in either grouping: wherever the middle
   layer has a leaf between two objects, the last object covers the first.
   */
  predicate Groupable(a: Json, b: Json, c: Json)
    decreases a
  {
    a.Obj? && c.Obj? ==>
      if b.Obj?
      then forall k <- a.fields.Keys | k in b.fields && k in c.fields ::
             Groupable(a.fields[k], b.fields[k], c.fields[k])
      else Covers(c, a)
  }

  /** Merging is associative exactly on groupable layers. */
  lemma {:induction false} AssociativeIffGroupable(a: Json, b: Json, c: Json)
    ensures Overlay(Overlay(a, b), c) == Overlay(a, Overlay(b, c)) <==> Groupable(a, b, c)
    decreases a
  {
    if a.Obj? && c.Obj? {
      if b.Obj? {
        var left, right := Overlay(Overlay(a, b), c), Overlay(a, Overlay(b, c));
        assert left.fields.Keys == right.fields.Keys;
        forall k | k in left.fields
          ensures left.fields[k] == right.fields[k] <==>
                  (k in a.fields && k in b.fields && k in c.fields ==>
                     Groupable(a.fields[k], b.fields[k], c.fields[k]))
        {
          if k in a.fields && k in b.fields && k in c.fields {
            AssociativeIffGroupable(a.fields[k], b.fields[k], c.fields[k]);
          }
        }
        if Groupable(a, b, c) {
          assert left.fields == right.fields;
        } else {
          var k :| k in a.fields && k in b.fields && k in c.fields && !Groupable(a.fields[k], b.fields[k], c.fields[k]);
          assert k in left.fields;
          assert left.fields != right.fields;
        }
      } else {
        ReplacesIffCovers(a, c);
      }
    }
  }

  // ---------- The legacy prompt settings ----------

  const PROVIDERS := "providers"
  const GEMINI := "gemini"
  const LEGACY_KEY := "prompt_compression"
  const LLM_PROMPT := "llm_prompt"
  const COMPRESSION := "compression"

  predicate Truthy(j: Json) {
    match j
    case Null => false
    case Bool(b) => b
    case Num(n) => n != 0.0
    case Str(s) => s != ""
    case Arr(items) => items != []
    case Obj(fields) => fields != map[]
  }

  predicate HasGemini(data: Fields) {
    PROVIDERS in data && data[PROVIDERS].Obj? && GEMINI in data[PROVIDERS].fields && data[PROVIDERS].fields[GEMINI].Obj?
  }

  function Gemini(data: Fields): Fields
    requires HasGemini(data)
  {
    data[PROVIDERS].fields[GEMINI].fields
  }

  predicate HasLegacy(data: Fields) {
    HasGemini(data) && LEGACY_KEY in Gemini(data)
  }

  /** `dict(data.get("llm_prompt") or {})`, which raises on a value that is neither falsy nor an object. */
  function PromptFields(data: Fields): Option<Fields> {
    if LLM_PROMPT !in data || !Truthy(data[LLM_PROMPT]) then Some(map[])
    else if data[LLM_PROMPT].Obj? then Some(data[LLM_PROMPT].fields)
    else None
  }

  function WithCompression(prompt: Fields, legacy: Json): Fields {
    if COMPRESSION in prompt then prompt else prompt[COMPRESSION := legacy]
  }

  function WithoutLegacy(data: Fields): Json
    requires HasGemini(data)
  {
    Obj(data[PROVIDERS].fields[GEMINI := Obj(Gemini(data) - {LEGACY_KEY})])
  }

  /** None where the code raises. */
  function Migrate(data: Fields): Option<Fields> {
    if !HasLegacy(data) then Some(data)
    else match PromptFields(data)
         case None => None
         case Some(prompt) =>
           Some(data[LLM_PROMPT := Obj(WithCompression(prompt, Gemini(data)[LEGACY_KEY]))]
                    [PROVIDERS := WithoutLegacy(data)])
  }

  /** Migration is idempotent and removes the legacy key for good. */
  lemma MigrateTwice(data: Fields)
    requires Migrate(data).Some?
    ensures Migrate(Migrate(data).value) == Migrate(data) && !HasLegacy(Migrate(data).value)
  {}

  /** All but the two places concerned is left as it was: other blocks, other providers, other gemini settings. */
  lemma MigrateLeavesTheRest(data: Fields, k: string)
    requires Migrate(data).Some?
    ensures var m := Migrate(data).value;
            && (k != LLM_PROMPT && k != PROVIDERS ==> (k in m <==> k in data) && (k in m ==> m[k] == data[k]))
            && (HasGemini(data) ==>
                  && HasGemini(m)
                  && m[PROVIDERS].fields - {GEMINI} == data[PROVIDERS].fields - {GEMINI}
                  && Gemini(m) == Gemini(data) - {LEGACY_KEY})
            && (PromptFields(m).Some? && PromptFields(data).Some? ==>
                  PromptFields(m).value - {COMPRESSION} == PromptFields(data).value - {COMPRESSION})
  {
    if HasLegacy(data) {
      KeysDiffer();
      assert Migrate(data).value[PROVIDERS] == WithoutLegacy(data);
    } else if HasGemini(data) {
      assert Gemini(data) - {LEGACY_KEY} == Gemini(data);
    }
  }

  lemma KeysDiffer()
    ensures PROVIDERS != LLM_PROMPT
  {
    assert |PROVIDERS| == 9 && |LLM_PROMPT| == 10;
  }

  /** The legacy value, whatever it is, lands under llm_prompt, unless a compression setting is there already. */
  lemma MigrateMovesLegacy(data: Fields)
    requires HasLegacy(data) && Migrate(data).Some?
    ensures var m, prompt := Migrate(data).value, PromptFields(data).value;
            && LLM_PROMPT in m && m[LLM_PROMPT].Obj?
            && m[LLM_PROMPT].fields.Keys == prompt.Keys + {COMPRESSION}
            && m[LLM_PROMPT].fields[COMPRESSION] ==
                 if COMPRESSION in prompt then prompt[COMPRESSION] else Gemini(data)[LEGACY_KEY]
  {
    KeysDiffer();
  }

  // ---------- The two orders of loading ----------

  /** The defaults as dumped: an llm_prompt with a compression block, a gemini block without the legacy key. */
  predicate IsDefaults(base: Fields) {
    && HasGemini(base) && LEGACY_KEY !in Gemini(base)
    && LLM_PROMPT in base && base[LLM_PROMPT].Obj? && COMPRESSION in base[LLM_PROMPT].fields
  }

  function DefaultCompression(base: Fields): Json
    requires IsDefaults(base)
  {
    base[LLM_PROMPT].fields[COMPRESSION]
  }

  /** `from_file`: merge over the defaults first; the validator migrates afterwards. */
  function FromFile(base: Fields, data: Fields): Option<Fields> {
    Migrate(Merge(base, data))
  }

  /** `from_dict`: migrate first, merge over the defaults, and let the validator migrate again. */
  function FromDict(base: Fields, data: Fields): Option<Fields> {
    match Migrate(data)
    case None => None
    case Some(migrated) => Migrate(Merge(base, migrated))
  }

  /**
   `from_file` merges the local file into the main one and the result into the defaults. That
   is the same as laying the three on top of each other in turn exactly on groupable layers.
   */
  lemma LocalLayerIffGroupable(base: Fields, data: Fields, local: Fields)
    ensures Merge(base, Merge(data, local)) == Merge(Merge(base, data), local)
       <==> Groupable(Obj(base), Obj(data), Obj(local))
  {
    AssociativeIffGroupable(Obj(base), Obj(data), Obj(local));
    MergeOfObjects(Obj(base), Obj(data));
    MergeOfObjects(Obj(data), Obj(local));
  }

  /**
   What a caller can check beforehand: the two orders agree if there is no legacy block, or the
   settings already carry a compression block, or the legacy block adds nothing to the default.
   A falsy non-object under llm_prompt wipes the default in one order only.
   */
  predicate OrdersAgree(base: Fields, data: Fields)
    requires IsDefaults(base)
  {
    HasLegacy(data) ==>
      var legacy := Gemini(data)[LEGACY_KEY];
      if LLM_PROMPT in data && !data[LLM_PROMPT].Obj? then
        Truthy(data[LLM_PROMPT])
        || (base[LLM_PROMPT].fields.Keys == {COMPRESSION} && Covers(legacy, DefaultCompression(base)))
      else
        (LLM_PROMPT in data && COMPRESSION in data[LLM_PROMPT].fields)
        || Redundant(legacy, DefaultCompression(base))
  }

  lemma MergeKeepsGemini(base: Fields, data: Fields)
    requires HasGemini(base)
    ensures HasGemini(Merge(base, data)) <==>
              !(PROVIDERS in data && (!data[PROVIDERS].Obj?
                                      || (GEMINI in data[PROVIDERS].fields && !data[PROVIDERS].fields[GEMINI].Obj?)))
    ensures HasGemini(data) ==>
              HasGemini(Merge(base, data)) && Gemini(Merge(base, data)) == Merge(Gemini(base), Gemini(data))
    ensures HasGemini(Merge(base, data)) && !HasGemini(data) ==> Gemini(Merge(base, data)) == Gemini(base)
  {
    MergeAt(base, data, PROVIDERS);
    if PROVIDERS in data && data[PROVIDERS].Obj? {
      MergeOfObjects(base[PROVIDERS], data[PROVIDERS]);
      MergeAt(base[PROVIDERS].fields, data[PROVIDERS].fields, GEMINI);
      if GEMINI in data[PROVIDERS].fields && data[PROVIDERS].fields[GEMINI].Obj? {
        MergeOfObjects(base[PROVIDERS].fields[GEMINI], data[PROVIDERS].fields[GEMINI]);
      }
    }
  }

  lemma MergeKeepsLegacy(base: Fields, data: Fields)
    requires IsDefaults(base)
    ensures HasLegacy(Merge(base, data)) <==> HasLegacy(data)
    ensures HasLegacy(data) ==> Gemini(Merge(base, data))[LEGACY_KEY] == Gemini(data)[LEGACY_KEY]
  {
    MergeKeepsGemini(base, data);
    if HasGemini(data) && LEGACY_KEY in Gemini(data) {
      MergeAt(Gemini(base), Gemini(data), LEGACY_KEY);
    }
  }

  /** Dropping the legacy key before the merge or after it makes no difference to the providers. */
  lemma CleaningCommutes(base: Fields, data: Fields)
    requires IsDefaults(base) && HasLegacy(data)
    ensures HasGemini(Merge(base, data))
    ensures WithoutLegacy(Merge(base, data)) == Overlay(base[PROVIDERS], WithoutLegacy(data))
  {
    MergeKeepsGemini(base, data);
    var bp, p := base[PROVIDERS].fields, data[PROVIDERS].fields;
    var cleaned := WithoutLegacy(data).fields;
    var result := WithoutLegacy(Merge(base, data)).fields;
    MergeAt(base, data, PROVIDERS);
    MergeOfObjects(base[PROVIDERS], data[PROVIDERS]);
    CleaningGemini(Gemini(base), Gemini(data));
    forall k | k in result
      ensures result[k] == Merged(bp, cleaned, k)
    {
      MergeAt(bp, p, k);
    }
    MergeByKeys(bp, cleaned, result);
    MergeOfObjects(base[PROVIDERS], WithoutLegacy(data));
  }

  lemma CleaningGemini(base: Fields, over: Fields)
    requires LEGACY_KEY !in base
    ensures Overlay(Obj(base), Obj(over - {LEGACY_KEY})) == Obj(Merge(base, over) - {LEGACY_KEY})
  {
    var cleaned := Merge(base, over) - {LEGACY_KEY};
    MergeByKeys(base, over - {LEGACY_KEY}, cleaned);
  }

  /** What each order makes of the llm_prompt block. */
  function PromptFromFile(base: Fields, data: Fields): Json
    requires IsDefaults(base) && HasLegacy(data) && PromptFields(data).Some?
  {
    var legacy := Gemini(data)[LEGACY_KEY];
    if LLM_PROMPT !in data then base[LLM_PROMPT]
    else if data[LLM_PROMPT].Obj? then Overlay(base[LLM_PROMPT], data[LLM_PROMPT])
    else Obj(map[COMPRESSION := legacy])
  }

  function PromptFromDict(base: Fields, data: Fields): Json
    requires IsDefaults(base) && HasLegacy(data) && PromptFields(data).Some?
  {
    Overlay(base[LLM_PROMPT], Obj(WithCompression(PromptFields(data).value, Gemini(data)[LEGACY_KEY])))
  }

  lemma PromptOfMerge(base: Fields, data: Fields)
    requires IsDefaults(base) && HasLegacy(data)
    ensures PromptFields(Merge(base, data)).Some? <==> PromptFields(data).Some?
    ensures PromptFields(data).Some? ==>
              Obj(WithCompression(PromptFields(Merge(base, data)).value, Gemini(data)[LEGACY_KEY]))
              == PromptFromFile(base, data)
  {
    MergeAt(base, data, LLM_PROMPT);
    if LLM_PROMPT in data && data[LLM_PROMPT].Obj? {
      MergeOfObjects(base[LLM_PROMPT], data[LLM_PROMPT]);
      MergeAt(base[LLM_PROMPT].fields, data[LLM_PROMPT].fields, COMPRESSION);
    }
  }

  lemma FromFileResult(base: Fields, data: Fields)
    requires IsDefaults(base) && HasLegacy(data)
    ensures FromFile(base, data) ==
              if PromptFields(data).None? then None
              else Some(Merge(base, data)[LLM_PROMPT := PromptFromFile(base, data)]
                                         [PROVIDERS := Overlay(base[PROVIDERS], WithoutLegacy(data))])
  {
    MergeKeepsLegacy(base, data);
    CleaningCommutes(base, data);
    PromptOfMerge(base, data);
  }

  lemma FromDictResult(base: Fields, data: Fields)
    requires IsDefaults(base) && HasLegacy(data)
    ensures FromDict(base, data) ==
              if PromptFields(data).None? then None
              else Some(Merge(base, data)[LLM_PROMPT := PromptFromDict(base, data)]
                                         [PROVIDERS := Overlay(base[PROVIDERS], WithoutLegacy(data))])
  {
    if PromptFields(data).Some? {
      KeysDiffer();
      var migrated := Migrate(data).value;
      var result := Merge(base, data)[LLM_PROMPT := PromptFromDict(base, data)]
                                     [PROVIDERS := Overlay(base[PROVIDERS], WithoutLegacy(data))];
      MigrateTwice(data);
      MergeKeepsLegacy(base, migrated);
      forall k | k in result ensures result[k] == Merged(base, migrated, k) {
        if k != LLM_PROMPT && k != PROVIDERS { MergeAt(base, data, k); }
      }
      MergeByKeys(base, migrated, result);
    }
  }

  /** Loading from a file and from a dictionary agree exactly under the stated condition. */
  lemma OrdersAgreeExactly(base: Fields, data: Fields)
    requires IsDefaults(base)
    ensures FromFile(base, data) == FromDict(base, data) <==> OrdersAgree(base, data)
  {
    if HasLegacy(data) {
      KeysDiffer();
      FromFileResult(base, data);
      FromDictResult(base, data);
      if PromptFields(data).Some? {
        PromptsAgreeExactly(base, data);
        var file, dict := FromFile(base, data).value, FromDict(base, data).value;
        assert file[LLM_PROMPT] == PromptFromFile(base, data) && dict[LLM_PROMPT] == PromptFromDict(base, data);
      }
    }
  }

  lemma PromptsAgreeExactly(base: Fields, data: Fields)
    requires IsDefaults(base) && HasLegacy(data) && PromptFields(data).Some?
    ensures PromptFromFile(base, data) == PromptFromDict(base, data) <==> OrdersAgree(base, data)
  {
    var legacy, default := Gemini(data)[LEGACY_KEY], DefaultCompression(base);
    KeepsIffRedundant(default, legacy);
    ReplacesIffCovers(default, legacy);
    var file, dict := PromptFromFile(base, data), PromptFromDict(base, data);
    if LLM_PROMPT in data && !data[LLM_PROMPT].Obj? {
      assert dict.fields.Keys == base[LLM_PROMPT].fields.Keys;
      assert dict.fields[COMPRESSION] == Overlay(default, legacy);
    } else if LLM_PROMPT !in data || COMPRESSION !in data[LLM_PROMPT].fields {
      assert file.fields.Keys == dict.fields.Keys;
      assert file.fields[COMPRESSION] == default && dict.fields[COMPRESSION] == Overlay(default, legacy);
      assert forall k <- file.fields.Keys :: k != COMPRESSION ==> file.fields[k] == dict.fields[k];
    }
  }
}
