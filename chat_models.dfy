/**
 * The rules of the chat page (public/chat.js) around the model dropdown and the
 * saved chats: the grouping of models by task and the choice of the selected
 * model in `populateModels`, the filter of `updateChatList`, and the height rule
 * of `autoGrow`.
 */
module ChatModels {
  import opened Wrappers
  import opened Text
  import opened JsValues

  // ---------------------------------------------------------------------------
  // Grouping models by task and selecting one (chat.js:79-114)
  // ---------------------------------------------------------------------------

  /**
   * The members of `Object.prototype` that every plain object inherits; using
   * one of them as a bucket key finds a non-array and the `push` throws.
   */
  const PrototypeKeys: set<string> := {
    "__proto__", "constructor", "hasOwnProperty", "isPrototypeOf", "propertyIsEnumerable",
    "toLocaleString", "toString", "valueOf",
    "__defineGetter__", "__defineSetter__", "__lookupGetter__", "__lookupSetter__"
  }

  /**
   * The bucket of one model: `model.task.name || 'Other'`, as a property key.
   * None when that throws (a null model, a missing or null `task`) or when the
   * key is an inherited member of the accumulator object.
   */
  function TaskKey(model: Json): (r: Option<string>)
    ensures r.Some? ==> r.value !in PrototypeKeys
    // A null model, or a task that is null or missing, throws.
    ensures model == JNull ==> r.None?
    ensures var task := Get(Defined(model), "task"); task == Undefined || task == Defined(JNull) ==> r.None?
    // Otherwise the key is the task name when that is truthy, and 'Other' when it is not.
    ensures var task := Get(Defined(model), "task");
      model != JNull && task != Undefined && task != Defined(JNull) ==>
        var key := if Truthy(Get(task, "name")) then ToJsString(Get(task, "name")) else "Other";
        r == if key in PrototypeKeys then None else Some(key)
  {
    match Member(Defined(model), "task")
    case None => None
    case Some(task) =>
      match Member(task, "name")
      case None => None
      case Some(name) =>
        var key := if Truthy(name) then ToJsString(name) else "Other";
        if key in PrototypeKeys then None else Some(key)
  }

  /** TaskKey as the key function `populateModels` groups by. */
  const TaskKeyOf: Json -> Option<string> := model => TaskKey(model)

  /** The bucket keys in the order their first model appears. */
  function BucketOrder(taskOf: Json -> Option<string>, models: seq<Json>): seq<string>
    decreases |models|
  {
    if |models| == 0 then []
    else
      var order := BucketOrder(taskOf, models[..|models| - 1]);
      var key := taskOf(models[|models| - 1]);
      if key.None? || key.value in order then order else order + [key.value]
  }

  /** The models of one bucket, in input order. */
  function InBucket(taskOf: Json -> Option<string>, models: seq<Json>, key: string): seq<Json>
    decreases |models|
  {
    if |models| == 0 then []
    else
      InBucket(taskOf, models[..|models| - 1], key)
      + (if taskOf(models[|models| - 1]) == Some(key) then [models[|models| - 1]] else [])
  }

  /** Every model whose task has no bucket key makes the whole grouping throw. */
  predicate AllKeyed(taskOf: Json -> Option<string>, models: seq<Json>) {
    forall k :: 0 <= k < |models| ==> taskOf(models[k]).Some?
  }

  lemma {:induction false} InBucketEmpty(taskOf: Json -> Option<string>, models: seq<Json>, key: string)
    requires key !in BucketOrder(taskOf, models)
    ensures InBucket(taskOf, models, key) == []
    decreases |models|
  {
    if |models| > 0 {
      InBucketEmpty(taskOf, models[..|models| - 1], key);
    }
  }

  lemma Prefix<T>(s: seq<T>, i: nat)
    requires i < |s|
    ensures s[..i + 1][..i] == s[..i] && s[..i + 1][i] == s[i]
  {
  }

  /** One more keyed model: its key gets a bucket if it had none, and only that bucket grows. */
  lemma GroupStep(taskOf: Json -> Option<string>, models: seq<Json>, i: nat, name: string)
    requires i < |models| && taskOf(models[i]) == Some(name)
    requires AllKeyed(taskOf, models[..i])
    ensures AllKeyed(taskOf, models[..i + 1])
    ensures BucketOrder(taskOf, models[..i + 1])
         == if name in BucketOrder(taskOf, models[..i]) then BucketOrder(taskOf, models[..i])
            else BucketOrder(taskOf, models[..i]) + [name]
    ensures InBucket(taskOf, models[..i + 1], name) == InBucket(taskOf, models[..i], name) + [models[i]]
    ensures forall key :: key != name ==> InBucket(taskOf, models[..i + 1], key) == InBucket(taskOf, models[..i], key)
  {
    var next := models[..i + 1];
    assert next[..i] == models[..i] && next[i] == models[i];
    assert |next| - 1 == i;
    forall key | key != name ensures InBucket(taskOf, next, key) == InBucket(taskOf, models[..i], key) {
      assert InBucket(taskOf, next, key) == InBucket(taskOf, models[..i], key) + [];
    }
  }

  /**
   * The `reduce` of `populateModels`, for the key function `taskOf` (TaskKeyOf in
   * the page): the buckets, in the order the keys of the accumulator are
   * enumerated, each holding its models in input order; None when the reduce throws.
   */
  method GroupBy(taskOf: Json -> Option<string>, models: seq<Json>) returns (r: Option<seq<(string, seq<Json>)>>)
    ensures r.None? <==> !AllKeyed(taskOf, models)
    ensures r.Some? ==> |r.value| == |BucketOrder(taskOf, models)|
    ensures r.Some? ==> forall t :: 0 <= t < |r.value| ==>
      r.value[t] == (BucketOrder(taskOf, models)[t], InBucket(taskOf, models, BucketOrder(taskOf, models)[t]))
  {
    var acc: map<string, seq<Json>> := map[];
    var order: seq<string> := [];
    var i := 0;
    while i < |models|
      invariant 0 <= i <= |models|
      invariant AllKeyed(taskOf, models[..i])
      invariant order == BucketOrder(taskOf, models[..i])
      invariant forall key :: key in acc <==> key in order
      invariant forall key :: key in acc ==> acc[key] == InBucket(taskOf, models[..i], key)
    {
      var key := taskOf(models[i]);
      if key.None? {
        return None;
      }
      var name := key.value;
      GroupStep(taskOf, models, i, name);
      if name !in acc {
        InBucketEmpty(taskOf, models[..i], name);
        acc := acc[name := []];
        order := order + [name];
      }
      acc := acc[name := acc[name] + [models[i]]];
      i := i + 1;
    }
    assert models[..i] == models;
    r := Some(seq(|order|, t requires 0 <= t < |order| => (order[t], acc[order[t]])));
  }

  /** No key names two buckets. */
  lemma {:induction false} BucketOrderDistinct(taskOf: Json -> Option<string>, models: seq<Json>)
    ensures forall s, t :: 0 <= s < t < |BucketOrder(taskOf, models)| ==> BucketOrder(taskOf, models)[s] != BucketOrder(taskOf, models)[t]
    decreases |models|
  {
    if |models| > 0 {
      BucketOrderDistinct(taskOf, models[..|models| - 1]);
    }
  }

  /** A key has a bucket exactly when some model maps to it. */
  lemma {:induction false} BucketOrderKeys(taskOf: Json -> Option<string>, models: seq<Json>, key: string)
    ensures key in BucketOrder(taskOf, models) <==> exists k :: 0 <= k < |models| && taskOf(models[k]) == Some(key)
    decreases |models|
  {
    if |models| > 0 {
      var init := models[..|models| - 1];
      BucketOrderKeys(taskOf, init, key);
      if exists k :: 0 <= k < |models| && taskOf(models[k]) == Some(key) {
        var k :| 0 <= k < |models| && taskOf(models[k]) == Some(key);
        if k < |init| {
          assert init[k] == models[k];
        }
      }
    }
  }

  /** The total size of the buckets named by `order`. */
  function BucketSizes(taskOf: Json -> Option<string>, models: seq<Json>, order: seq<string>): nat
    decreases |order|
  {
    if |order| == 0 then 0
    else BucketSizes(taskOf, models, order[..|order| - 1]) + |InBucket(taskOf, models, order[|order| - 1])|
  }

  lemma {:induction false} BucketSizesGrow(taskOf: Json -> Option<string>, models: seq<Json>, m: Json, order: seq<string>)
    requires forall s, t :: 0 <= s < t < |order| ==> order[s] != order[t]
    ensures BucketSizes(taskOf, models + [m], order)
         == BucketSizes(taskOf, models, order) + (if taskOf(m).Some? && taskOf(m).value in order then 1 else 0)
    decreases |order|
  {
    assert (models + [m])[..|models + [m]| - 1] == models;
    if |order| > 0 {
      var init := order[..|order| - 1];
      BucketSizesGrow(taskOf, models, m, init);
      assert order == init + [order[|order| - 1]];
    }
  }

  /** The buckets hold every model exactly once: their sizes add up to the number of models. */
  lemma {:induction false} BucketsPartitionModels(taskOf: Json -> Option<string>, models: seq<Json>)
    requires AllKeyed(taskOf, models)
    ensures BucketSizes(taskOf, models, BucketOrder(taskOf, models)) == |models|
    decreases |models|
  {
    if |models| > 0 {
      var init := models[..|models| - 1];
      var m := models[|models| - 1];
      assert models == init + [m];
      assert AllKeyed(taskOf, init) by {
        assert forall k :: 0 <= k < |init| ==> init[k] == models[k];
      }
      BucketsPartitionModels(taskOf, init);
      BucketOrderDistinct(taskOf, init);
      BucketSizesGrow(taskOf, init, m, BucketOrder(taskOf, init));
      var key := taskOf(m).value;
      if key !in BucketOrder(taskOf, init) {
        InBucketEmpty(taskOf, init, key);
        assert BucketOrder(taskOf, models) == BucketOrder(taskOf, init) + [key];
        assert BucketOrder(taskOf, models)[..|BucketOrder(taskOf, models)| - 1] == BucketOrder(taskOf, init);
      }
    }
  }

  /** Each model sits in the bucket of its own key. */
  lemma {:induction false} ModelInOwnBucket(taskOf: Json -> Option<string>, models: seq<Json>, i: nat)
    requires i < |models| && taskOf(models[i]).Some?
    ensures taskOf(models[i]).value in BucketOrder(taskOf, models)
    ensures models[i] in InBucket(taskOf, models, taskOf(models[i]).value)
    decreases |models|
  {
    BucketOrderKeys(taskOf, models, taskOf(models[i]).value);
    if i < |models| - 1 {
      var init := models[..|models| - 1];
      assert init[i] == models[i];
      ModelInOwnBucket(taskOf, init, i);
    }
  }

  /** The value of the option created for a model: `model.name` as a string. */
  function OptionValue(model: Json): string {
    ToJsString(Get(Defined(model), "name"))
  }

  /** The option values of the dropdown, bucket by bucket. */
  function OptionValues(buckets: seq<(string, seq<Json>)>): (r: seq<string>)
    // The options of the first bucket come first, in its order.
    ensures |buckets| > 0 ==>
      |r| >= |buckets[0].1| && forall k :: 0 <= k < |buckets[0].1| ==> r[k] == OptionValue(buckets[0].1[k])
    ensures r == [] <==> forall t :: 0 <= t < |buckets| ==> buckets[t].1 == []
    decreases |buckets|
  {
    if |buckets| == 0 then []
    else seq(|buckets[0].1|, k requires 0 <= k < |buckets[0].1| => OptionValue(buckets[0].1[k]))
         + OptionValues(buckets[1..])
  }

  /** The outcome of the selection rule: the selected value, and whether the URL is rewritten. */
  datatype Selection = Selection(value: Option<string>, urlUpdated: bool)

  /**
   * The requested model when it is one of the option values; otherwise the first
   * option, if there is one, with the URL updated to it.
   */
  function SelectModel(values: seq<string>, requested: Option<string>): (r: Selection)
    ensures r.value.Some? ==> r.value.value in values
    ensures r.value.None? <==> |values| == 0
    ensures requested.Some? && requested.value in values ==> r == Selection(requested, false)
    ensures r.urlUpdated <==> |values| > 0 && (requested.None? || requested.value !in values)
    ensures r.urlUpdated ==> r.value == Some(values[0])
  {
    if requested.Some? && requested.value in values then Selection(requested, false)
    else if |values| > 0 then Selection(Some(values[0]), true)
    else Selection(None, false)
  }

  lemma {:induction false} FirstBucketStartsWithFirstModel(taskOf: Json -> Option<string>, models: seq<Json>)
    requires |models| > 0 && taskOf(models[0]).Some?
    ensures |BucketOrder(taskOf, models)| > 0 && BucketOrder(taskOf, models)[0] == taskOf(models[0]).value
    ensures |InBucket(taskOf, models, taskOf(models[0]).value)| > 0
    ensures InBucket(taskOf, models, taskOf(models[0]).value)[0] == models[0]
    decreases |models|
  {
    if |models| > 1 {
      var init := models[..|models| - 1];
      assert init[0] == models[0];
      FirstBucketStartsWithFirstModel(taskOf, init);
    }
  }

  /**
   * Without a requested model in the list, `populateModels` selects the first
   * model of its input: the first bucket is keyed by that model's task and starts with it.
   */
  lemma FallbackSelectsFirstModel(taskOf: Json -> Option<string>, models: seq<Json>, buckets: seq<(string, seq<Json>)>, requested: Option<string>)
    requires |models| > 0 && AllKeyed(taskOf, models)
    requires |buckets| == |BucketOrder(taskOf, models)|
    requires forall t :: 0 <= t < |buckets| ==> buckets[t] == (BucketOrder(taskOf, models)[t], InBucket(taskOf, models, BucketOrder(taskOf, models)[t]))
    requires requested.None? || requested.value !in OptionValues(buckets)
    ensures SelectModel(OptionValues(buckets), requested) == Selection(Some(OptionValue(models[0])), true)
  {
    FirstBucketStartsWithFirstModel(taskOf, models);
    assert buckets[0].1[0] == models[0];
    assert OptionValues(buckets)[0] == OptionValue(models[0]);
  }

  // ---------------------------------------------------------------------------
  // The chat list and the textarea height (chat.js:425-469)
  // ---------------------------------------------------------------------------

  /** The storage keys that are settings, not saved chats. */
  predicate Reserved(key: string) {
    key == "host-address" || key == "system-prompt"
  }

  /** The storage keys that become options, in storage order. */
  function ChatKeys(keys: seq<string>): seq<string>
    decreases |keys|
  {
    if |keys| == 0 then []
    else ChatKeys(keys[..|keys| - 1]) + (if Reserved(keys[|keys| - 1]) then [] else [keys[|keys| - 1]])
  }

  lemma {:induction false} ChatKeysMembers(keys: seq<string>)
    ensures forall k :: k in ChatKeys(keys) <==> k in keys && !Reserved(k)
    decreases |keys|
  {
    if |keys| > 0 {
      var init := keys[..|keys| - 1];
      ChatKeysMembers(init);
      assert keys == init + [keys[|keys| - 1]];
    }
  }

  /**
   * `updateChatList()`: the option values (a disabled placeholder with value ""
   * first, then every saved chat) and the selection afterwards. The previous
   * selection is kept only when it is still an option.
   */
  method UpdateChatList(keys: seq<string>, previous: string) returns (options: seq<string>, selected: string)
    ensures options == [""] + ChatKeys(keys)
    ensures "host-address" !in options && "system-prompt" !in options
    ensures forall k :: k in keys && !Reserved(k) ==> k in options
    ensures selected == (if previous in options then previous else "")
    ensures selected in options
  {
    options := [""];
    var i := 0;
    while i < |keys|
      invariant 0 <= i <= |keys|
      invariant options == [""] + ChatKeys(keys[..i])
    {
      Prefix(keys, i);
      var key := keys[i];
      if !Reserved(key) {
        options := options + [key];
      }
      i := i + 1;
    }
    assert keys[..i] == keys;
    ChatKeysMembers(keys);
    if previous in options {
      selected := previous;
    } else {
      selected := "";
    }
  }

  const TextBoxBaseHeight: int := 40
  const MaxHeight: int := 200

  /**
   * `autoGrow`: the new height in pixels. One line (no new line in the text) gives
   * the base height; otherwise the content height, capped at the maximum.
   */
  function AutoGrowHeight(text: string, scrollHeight: int): (h: int)
    ensures '\n' !in text ==> h == TextBoxBaseHeight
    ensures '\n' in text ==> h == (if scrollHeight > MaxHeight then MaxHeight else scrollHeight)
    ensures '\n' in text ==> h <= MaxHeight
  {
    SingleCharSplit(text, '\n');
    var numberOfLines := |Split(text, "\n")|;
    if numberOfLines == 1 then TextBoxBaseHeight
    else if scrollHeight > MaxHeight then MaxHeight
    else scrollHeight
  }
}
