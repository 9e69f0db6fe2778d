/**
 * Normalisation of the `heat_switch` and `temp_sensor` settings in
 * `parse_and_register`: a setting is one entity or a list whose items are
 * entity names or single-key mappings; it is flattened to a list of names,
 * which is then filtered, in order, down to the entities that exist.
 */
module Config {

  /** An item of a list setting: a name, a mapping (whose keys, in order,
      are names), or anything else (dropped with an error in the log). */
  datatype Item = Name(name: string) | Keys(keys: seq<string>) | Unsupported

  /** A setting as written in the configuration: a single entity, or a list. */
  datatype Setting = Scalar(name: string) | Items(items: seq<Item>)

  /** The names one list item contributes. */
  function Contribution(item: Item): seq<string> {
    match item
    case Name(n) => [n]
    case Keys(ks) => ks
    case Unsupported => []
  }

  /** The names of a list, item after item. */
  function FlattenItems(items: seq<Item>): seq<string>
    decreases |items|
  {
    if items == [] then []
    else FlattenItems(items[..|items| - 1]) + Contribution(items[|items| - 1])
  }

  /** The names a setting lists: a single entity becomes a one-element list. */
  function Flatten(setting: Setting): seq<string> {
    match setting
    case Scalar(n) => [n]
    case Items(items) => FlattenItems(items)
  }

  /** The names of `names` that are existing entities, in their order. */
  function Existing(names: seq<string>, entities: set<string>): seq<string>
    decreases |names|
  {
    if names == [] then []
    else
      var last := names[|names| - 1];
      Existing(names[..|names| - 1], entities) + (if last in entities then [last] else [])
  }

  /** The flattening loop: names are appended item by item. */
  method NormaliseNames(setting: Setting) returns (names: seq<string>)
    ensures names == Flatten(setting)
  {
    match setting
    case Scalar(n) =>
      names := [n];
    case Items(items) =>
      names := [];
      for i := 0 to |items|
        invariant names == FlattenItems(items[..i])
      {
        assert items[..i + 1][..i] == items[..i];
        match items[i]
        case Keys(ks) => names := names + ks;
        case Name(n) => names := names + [n];
        case Unsupported =>
      }
      assert items[..|items|] == items;
  }

  /** The existence filter: each name that exists is appended, in order. */
  method KeepExisting(names: seq<string>, entities: set<string>) returns (kept: seq<string>)
    ensures kept == Existing(names, entities)
    ensures forall i :: 0 <= i < |kept| ==> kept[i] in entities
  {
    kept := [];
    for i := 0 to |names|
      invariant kept == Existing(names[..i], entities)
      invariant forall j :: 0 <= j < |kept| ==> kept[j] in entities
    {
      assert names[..i + 1][..i] == names[..i];
      if names[i] in entities {
        kept := kept + [names[i]];
      }
    }
    assert names[..|names|] == names;
  }

  /** A name is in a flattened list exactly when some item contributes it. */
  lemma {:induction false} FlattenItemsMembership(items: seq<Item>, x: string)
    ensures x in FlattenItems(items) <==> exists i :: 0 <= i < |items| && x in Contribution(items[i])
  {
    if items != [] {
      var init := items[..|items| - 1];
      FlattenItemsMembership(init, x);
      assert forall i :: 0 <= i < |init| ==> init[i] == items[i];
      if x in Contribution(items[|items| - 1]) {
        assert x in FlattenItems(items);
      }
    }
  }

  /** A name survives the filter exactly when it is listed and exists; so
      every configured switch and sensor is an existing entity. */
  lemma {:induction false} ExistingMembership(names: seq<string>, entities: set<string>, x: string)
    ensures x in Existing(names, entities) <==> x in names && x in entities
  {
    if names != [] {
      var init := names[..|names| - 1];
      ExistingMembership(init, entities, x);
      assert names == init + [names[|names| - 1]];
    }
  }

  /** The filter keeps order: filtering a concatenation filters each part
      and concatenates the results. */
  lemma {:induction false} ExistingAppend(a: seq<string>, b: seq<string>, entities: set<string>)
    ensures Existing(a + b, entities) == Existing(a, entities) + Existing(b, entities)
    decreases |b|
  {
    if b != [] {
      var initB := b[..|b| - 1];
      ExistingAppend(a, initB, entities);
      assert (a + b)[..|a + b| - 1] == a + initB;
    } else {
      assert a + b == a;
    }
  }

  /** When every listed name exists, nothing is filtered out. */
  lemma {:induction false} ExistingAllPresent(names: seq<string>, entities: set<string>)
    requires forall i :: 0 <= i < |names| ==> names[i] in entities
    ensures Existing(names, entities) == names
  {
    if names != [] {
      var init := names[..|names| - 1];
      ExistingAllPresent(init, entities);
      assert names == init + [names[|names| - 1]];
    }
  }

  /** The filter never lengthens the list. */
  lemma {:induction false} ExistingShorter(names: seq<string>, entities: set<string>)
    ensures |Existing(names, entities)| <= |names|
  {
    if names != [] {
      ExistingShorter(names[..|names| - 1], entities);
    }
  }
}
