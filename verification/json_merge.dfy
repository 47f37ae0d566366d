/**
 * The recursive structural merge applied to `.vscode/settings.json` when a
 * template is installed into an existing directory
 * (`merge_json_files` and its inner `deep_merge`).
 */
module JsonMerge {
  import opened Wrappers

  /** A parsed JSON document. Numbers are kept as integers: the merge never inspects them. */
  datatype Json =
    | JNull
    | JBool(b: bool)
    | JNumber(n: int)
    | JString(s: string)
    | JArray(items: seq<Json>)
    | JObject(fields: map<string, Json>)

  /** True when both sides of a key are objects, the only case `deep_merge` recurses on. */
  predicate BothObjects(base: map<string, Json>, update: map<string, Json>, k: string) {
    k in base && k in update && base[k].JObject? && update[k].JObject?
  }

  /**
   * The value `deep_merge(base, update)` returns: every key of either side; a key
   * present only in `base` keeps its value; a key where both values are objects
   * holds their recursive merge; every other key of `update` (lists and scalars
   * included) takes the incoming value.
   */
  function DeepMerge(base: map<string, Json>, update: map<string, Json>): (r: map<string, Json>)
    decreases JObject(update)
    ensures r.Keys == base.Keys + update.Keys
    ensures forall k :: k in base && k !in update ==> r[k] == base[k]
    ensures forall k :: k in update && !BothObjects(base, update, k) ==> r[k] == update[k]
  {
    map k | k in base.Keys + update.Keys ::
      if BothObjects(base, update, k) then JObject(DeepMerge(base[k].fields, update[k].fields))
      else if k in update then update[k]
      else base[k]
  }

  /** Where both sides of a key hold objects, the merged key holds the merge of those two objects. */
  lemma BothObjectsMergeRecursively(base: map<string, Json>, update: map<string, Json>, k: string)
    requires BothObjects(base, update, k)
    ensures k in DeepMerge(base, update)
    ensures DeepMerge(base, update)[k] == JObject(DeepMerge(base[k].fields, update[k].fields))
  {
  }

  /**
   * The loop of `deep_merge` as written: start from a copy of `base` and visit the
   * keys of `update` one at a time, in whatever order the dictionary yields them.
   * Whatever that order, the outcome is `DeepMerge(base, update)`.
   */
  method MergeLoop(base: map<string, Json>, update: map<string, Json>) returns (result: map<string, Json>)
    decreases JObject(update)
    ensures result == DeepMerge(base, update)
  {
    result := base;
    var todo := update.Keys;
    while todo != {}
      invariant todo <= update.Keys
      invariant result.Keys == base.Keys + (update.Keys - todo)
      invariant forall k :: k in result && k !in todo && k in update ==> result[k] == DeepMerge(base, update)[k]
      invariant forall k :: k in result && (k in todo || k !in update) ==> result[k] == base[k]
      decreases todo
    {
      var key :| key in todo;
      var value := update[key];
      if key in result && result[key].JObject? && value.JObject? {
        var sub := MergeLoop(result[key].fields, value.fields);
        result := result[key := JObject(sub)];
      } else {
        result := result[key := value];
      }
      todo := todo - {key};
    }
  }

  /** Merging with an empty update returns the base unchanged. */
  lemma MergeEmptyUpdate(base: map<string, Json>)
    ensures DeepMerge(base, map[]) == base
  {
  }

  /** Merging into an empty base yields the update unchanged. */
  lemma MergeEmptyBase(update: map<string, Json>)
    ensures DeepMerge(map[], update) == update
  {
  }

  /** Merging a settings object with itself changes nothing. */
  lemma {:induction false} MergeSelf(m: map<string, Json>)
    decreases JObject(m)
    ensures DeepMerge(m, m) == m
  {
    forall k | k in m && BothObjects(m, m, k)
      ensures DeepMerge(m, m)[k] == m[k]
    {
      MergeSelf(m[k].fields);
    }
  }

  /**
   * Merging the same incoming settings a second time changes nothing: installing
   * a template twice into one directory leaves the same settings as installing it once.
   */
  lemma {:induction false} MergeReapply(base: map<string, Json>, update: map<string, Json>)
    decreases JObject(update)
    ensures DeepMerge(DeepMerge(base, update), update) == DeepMerge(base, update)
  {
    var once := DeepMerge(base, update);
    forall k | k in once.Keys
      ensures DeepMerge(once, update)[k] == once[k]
    {
      if BothObjects(once, update, k) {
        if BothObjects(base, update, k) {
          MergeReapply(base[k].fields, update[k].fields);
        } else {
          MergeSelf(update[k].fields);
        }
      }
    }
  }

  /** The value at a key path inside a document, if there is one. */
  function At(j: Json, path: seq<string>): Option<Json> {
    if path == [] then Some(j)
    else if j.JObject? && path[0] in j.fields then At(j.fields[path[0]], path[1..])
    else None
  }

  /**
   * Every non-object value of the incoming settings, at any depth, is present at
   * the same key path of the merged settings: the incoming side always wins at the leaves.
   */
  lemma {:induction false} IncomingLeafWins(base: map<string, Json>, update: map<string, Json>, path: seq<string>, v: Json)
    requires At(JObject(update), path) == Some(v) && !v.JObject?
    decreases path
    ensures At(JObject(DeepMerge(base, update)), path) == Some(v)
  {
    var k := path[0];
    if BothObjects(base, update, k) {
      IncomingLeafWins(base[k].fields, update[k].fields, path[1..], v);
    }
  }

  /** Following one key and then `rest` inside an object is following `rest` inside that key's value. */
  lemma AtCons(m: map<string, Json>, k: string, rest: seq<string>)
    ensures At(JObject(m), [k] + rest) == if k in m then At(m[k], rest) else None
  {
    assert ([k] + rest)[0] == k && ([k] + rest)[1..] == rest;
  }

  /**
   * A key path of the existing settings survives the merge with its value when the
   * incoming settings hold nothing at that path and, along the way, either stop or
   * hold an object: user keys nested under a shared object are kept.
   */
  lemma {:induction false} ExistingUntouchedKept(base: map<string, Json>, update: map<string, Json>, path: seq<string>, v: Json)
    requires At(JObject(base), path) == Some(v)
    requires At(JObject(update), path) == None
    requires forall i :: 0 <= i < |path| ==>
               At(JObject(update), path[..i]).None? || At(JObject(update), path[..i]).value.JObject?
    decreases path
    ensures At(JObject(DeepMerge(base, update)), path) == Some(v)
  {
    var k, rest := path[0], path[1..];
    assert path == [k] + rest;
    AtCons(base, k, rest);
    AtCons(update, k, rest);
    AtCons(DeepMerge(base, update), k, rest);
    if k in update {
      assert path[..1] == [k] + [];
      AtCons(update, k, []);
      assert update[k].JObject?;
      assert rest != [];
      assert base[k].JObject?;
      assert BothObjects(base, update, k);
      forall i | 0 <= i < |rest|
        ensures At(JObject(update[k].fields), rest[..i]).None? || At(JObject(update[k].fields), rest[..i]).value.JObject?
      {
        assert path[..i + 1] == [k] + rest[..i];
        AtCons(update, k, rest[..i]);
      }
      ExistingUntouchedKept(base[k].fields, update[k].fields, rest, v);
    }
  }

  /** When the incoming settings lack the top-level key altogether, the whole existing subtree under it is kept. */
  lemma TopLevelUntouchedKept(base: map<string, Json>, update: map<string, Json>, path: seq<string>, v: Json)
    requires At(JObject(base), path) == Some(v)
    requires |path| > 0 && path[0] !in update
    ensures At(JObject(DeepMerge(base, update)), path) == Some(v)
  {
    assert path == [path[0]] + path[1..];
    AtCons(base, path[0], path[1..]);
    AtCons(DeepMerge(base, update), path[0], path[1..]);
  }

  /** User key `x`, nested under the shared object `b`, survives a merge that adds `y` there. */
  lemma NestedUserKeyKept()
    ensures At(JObject(DeepMerge(map["b" := JObject(map["x" := JNumber(1)])],
                                 map["b" := JObject(map["y" := JNumber(2)])])), ["b", "x"])
         == Some(JNumber(1))
  {
    var base := map["b" := JObject(map["x" := JNumber(1)])];
    var update := map["b" := JObject(map["y" := JNumber(2)])];
    AtCons(base, "b", ["x"]);
    AtCons(update, "b", ["x"]);
    AtCons(update, "b", []);
    assert ["b", "x"] == ["b"] + ["x"];
    assert ["b", "x"][..1] == ["b"] + [];
    assert ["b", "x"][..0] == [];
    ExistingUntouchedKept(base, update, ["b", "x"], JNumber(1));
  }

  /** A worked example: `{"a":1,"b":{"x":1}}` merged with `{"b":{"y":2},"c":3}`. */
  lemma ExampleMerge()
    ensures DeepMerge(map["a" := JNumber(1), "b" := JObject(map["x" := JNumber(1)])],
                      map["b" := JObject(map["y" := JNumber(2)]), "c" := JNumber(3)])
         == map["a" := JNumber(1), "b" := JObject(map["x" := JNumber(1), "y" := JNumber(2)]), "c" := JNumber(3)]
  {
    var base := map["a" := JNumber(1), "b" := JObject(map["x" := JNumber(1)])];
    var update := map["b" := JObject(map["y" := JNumber(2)]), "c" := JNumber(3)];
    assert BothObjects(base, update, "b");
    assert DeepMerge(map["x" := JNumber(1)], map["y" := JNumber(2)]) == map["x" := JNumber(1), "y" := JNumber(2)];
  }

  /** What reading the existing settings file produced. */
  datatype ExistingFile = Missing | Malformed | Parsed(doc: Json)

  /** The Python exception `deep_merge` raises on a value that is not a dictionary. */
  datatype MergeError =
    | NoCopyMethod      // AttributeError: `base.copy()` on a string, number, boolean or null
    | NoItemsMethod     // AttributeError: `update.items()` on a non-dictionary
    | ListIndexedByKey  // TypeError: `result[key]` on a list copied from the existing file

  /**
   * `merge_json_files`: a missing or malformed existing file yields the incoming
   * content as is; otherwise the existing document is deep-merged with it, which
   * raises unless both are objects (an existing list survives only an empty update).
   */
  function MergeJsonFile(existing: ExistingFile, incoming: Json): (r: Result<Json, MergeError>)
    ensures (existing.Missing? || existing.Malformed?) ==> r == Ok(incoming)
    ensures existing.Parsed? && existing.doc.JObject? && incoming.JObject? ==>
              r.Ok? && r.value.JObject? && r.value.fields.Keys == existing.doc.fields.Keys + incoming.fields.Keys
    ensures existing.Parsed? && existing.doc.JObject? && incoming.JObject? ==>
              r == Ok(JObject(DeepMerge(existing.doc.fields, incoming.fields)))
    ensures existing.Parsed? && existing.doc.JArray? && incoming == JObject(map[]) ==> r == Ok(existing.doc)
    ensures r.Err? <==> existing.Parsed? && !(existing.doc.JObject? && incoming.JObject?)
                        && !(existing.doc.JArray? && incoming == JObject(map[]))
  {
    match existing
    case Missing => Ok(incoming)
    case Malformed => Ok(incoming)
    case Parsed(doc) =>
      match doc
      case JObject(base) =>
        if incoming.JObject? then Ok(JObject(DeepMerge(base, incoming.fields))) else Err(NoItemsMethod)
      case JArray(_) =>
        if !incoming.JObject? then Err(NoItemsMethod)
        else if incoming.fields == map[] then Ok(doc)
        else Err(ListIndexedByKey)
      case _ => Err(NoCopyMethod)
  }
}
