/**
  The small part of JavaScript's semantics that a table lookup written as
  `codes[code] || fallback` relies on: evaluating an object literal whose
  keys are integers, reading a property that may be missing (`undefined`),
  and the `||` operator on a string that may be missing.

  An integer key `k` in a literal and an integer used in `o[k]` are both
  turned into the same canonical property name, so keys are modelled as `int`.
 */
module JsObject {

  /** One `key: value` property definition of an object literal. */
  datatype Property<V> = Property(key: int, value: V)

  /** The result of reading a property: `undefined` when the object has none. */
  datatype JsValue<V> = Undefined | Defined(value: V)

  /** Some definition in `props` has key `k`. */
  ghost predicate Defines<V>(props: seq<Property<V>>, k: int) {
    exists i :: 0 <= i < |props| && props[i].key == k
  }

  /** No later definition in `props` overrides definition `i`. */
  ghost predicate IsLastDefinition<V>(props: seq<Property<V>>, i: int) {
    0 <= i < |props| && forall j :: i < j < |props| ==> props[j].key != props[i].key
  }

  /** No key is defined twice. */
  ghost predicate KeysDistinct<V>(props: seq<Property<V>>) {
    forall i, j :: 0 <= i < j < |props| ==> props[i].key != props[j].key
  }

  /** The keys are listed in strictly increasing order. */
  ghost predicate KeysIncreasing<V>(props: seq<Property<V>>) {
    forall i :: 0 < i < |props| ==> props[i - 1].key < props[i].key
  }

  /** No value is given twice. */
  ghost predicate ValuesDistinct<V>(props: seq<Property<V>>) {
    forall i, j :: 0 <= i < j < |props| ==> props[i].value != props[j].value
  }

  /** No two keys of `o` share a value. */
  ghost predicate Injective<V>(o: map<int, V>) {
    forall a, b :: a in o && b in o && a != b ==> o[a] != o[b]
  }

  /**
    The object an object literal evaluates to. Definitions take effect in
    source order, so a later definition of a key replaces an earlier one.
   */
  function ObjectOf<V>(props: seq<Property<V>>): map<int, V> {
    if props == [] then map[]
    else ObjectOf(props[..|props| - 1])[props[|props| - 1].key := props[|props| - 1].value]
  }

  /** Every key the literal defines is a key of the object. */
  lemma {:induction false} ObjectOfHasDefinedKey<V>(props: seq<Property<V>>, i: int)
    requires 0 <= i < |props|
    ensures props[i].key in ObjectOf(props)
  {
    if i < |props| - 1 {
      var init := props[..|props| - 1];
      ObjectOfHasDefinedKey(init, i);
      assert init[i] == props[i];
    }
  }

  /** Every key of the object, with its value, comes from a definition of the literal. */
  lemma {:induction false} ObjectOfFromDefinition<V>(props: seq<Property<V>>, k: int)
    requires k in ObjectOf(props)
    ensures exists i :: 0 <= i < |props| && props[i] == Property(k, ObjectOf(props)[k])
  {
    var n := |props| - 1;
    if props[n].key == k {
      assert props[n] == Property(k, ObjectOf(props)[k]);
    } else {
      var init := props[..n];
      ObjectOfFromDefinition(init, k);
      var i :| 0 <= i < |init| && init[i] == Property(k, ObjectOf(init)[k]);
      assert props[i] == init[i];
    }
  }

  /** A key holds the value of its last definition in the literal. */
  lemma {:induction false} ObjectOfLastDefinitionWins<V>(props: seq<Property<V>>, i: int)
    requires IsLastDefinition(props, i)
    ensures props[i].key in ObjectOf(props) && ObjectOf(props)[props[i].key] == props[i].value
  {
    var n := |props| - 1;
    if i < n {
      var init := props[..n];
      assert init[i] == props[i];
      assert IsLastDefinition(init, i);
      ObjectOfLastDefinitionWins(init, i);
    }
  }

  /** Reading property `key` of object `o`. */
  function Get<V>(o: map<int, V>, key: int): JsValue<V> {
    if key in o then Defined(o[key]) else Undefined
  }

  /** JavaScript truthiness of a possibly missing string: `undefined` and `""` are falsy. */
  predicate Truthy(v: JsValue<string>) {
    v.Defined? && v.value != ""
  }

  /** `v || fallback`: the left operand when it is truthy, otherwise the right one. */
  function Or(v: JsValue<string>, fallback: string): string {
    if Truthy(v) then v.value else fallback
  }

  /** Every definition of a literal wins when no key is defined twice. */
  lemma DistinctKeysAllLast<V>(props: seq<Property<V>>, i: int)
    requires KeysDistinct(props)
    requires 0 <= i < |props|
    ensures IsLastDefinition(props, i)
  {
  }

  /** In a literal whose keys increase, every key is below all later ones. */
  lemma {:induction false} IncreasingKeysOrdered<V>(props: seq<Property<V>>, i: int, j: int)
    requires KeysIncreasing(props)
    requires 0 <= i < j < |props|
    ensures props[i].key < props[j].key
    decreases j - i
  {
    if i + 1 < j {
      IncreasingKeysOrdered(props, i + 1, j);
    }
  }

  /** A literal whose keys increase defines no key twice. */
  lemma IncreasingKeysDistinct<V>(props: seq<Property<V>>)
    requires KeysIncreasing(props)
    ensures KeysDistinct(props)
  {
    forall i, j | 0 <= i < j < |props|
      ensures props[i].key != props[j].key
    {
      IncreasingKeysOrdered(props, i, j);
    }
  }

  /**
    When no value of `o` is the empty string, `o[key] || fallback` falls back
    exactly when `key` is absent: the lookup is "present value, else fallback".
   */
  lemma OrFallsBackOnlyWhenAbsent(o: map<int, string>, key: int, fallback: string)
    requires forall k :: k in o ==> o[k] != ""
    ensures Or(Get(o, key), fallback) == if key in o then o[key] else fallback
  {
  }

  /** A literal with pairwise distinct values evaluates to an injective object. */
  lemma DistinctValuesInjective<V>(props: seq<Property<V>>)
    requires ValuesDistinct(props)
    ensures Injective(ObjectOf(props))
  {
    var o := ObjectOf(props);
    forall a, b | a in o && b in o && a != b
      ensures o[a] != o[b]
    {
      ObjectOfFromDefinition(props, a);
      ObjectOfFromDefinition(props, b);
      var i :| 0 <= i < |props| && props[i] == Property(a, o[a]);
      var j :| 0 <= j < |props| && props[j] == Property(b, o[b]);
      assert i != j;
      if i < j {
        assert props[i].value != props[j].value;
      } else {
        assert props[j].value != props[i].value;
      }
    }
  }
}
