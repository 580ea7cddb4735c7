/**
 * The nested-object helper the trash builder calls (`createNestedObject`,
 * imported from src/helpers.ts, whose text is not part of this model).
 *
 * `CreateNestedObject(base, names, value)` walks `base` along all but the last
 * of `names`, reusing each object it finds and creating an empty object where
 * a name is missing, and stores `value` under the last name. The body below is
 * one reading of that behaviour on values (the call site reassigns the
 * mutated object, and header objects are never shared, so a value model loses
 * nothing). The lemmas about it claim only what the call site depends on:
 * the value is reachable along `names`, and everything off that path is kept,
 * whenever every node the walk meets is an object. What the helper does when the walk
 * meets a number or a string is deliberately left unstated.
 */
module Helpers {
  import opened Asar

  /** The value reached from `v` by following the property names of `path`. */
  function Lookup(v: Value, path: seq<string>): Option<Value>
    decreases |path|
  {
    if |path| == 0 then Some(v)
    else if v.Obj? && path[0] in v.props then Lookup(v.props[path[0]], path[1..])
    else None
  }

  /** JavaScript truthiness: 0 and "" are falsy, every object is truthy. */
  predicate Truthy(v: Value) {
    match v
    case Num(n) => n != 0
    case Str(s) => s != ""
    case Obj(_) => true
  }

  /**
   * True when walking `v` along all but the last of `names` meets only objects:
   * `v` is an object, and the node under `names[0]`, when present and not the
   * last step, is walkable along the rest.
   */
  predicate Walkable(v: Value, names: seq<string>)
    decreases |names|
  {
    && v.Obj?
    && (|names| <= 1 || names[0] !in v.props || Walkable(v.props[names[0]], names[1..]))
  }

  /** True when neither path is a prefix of the other: they part at some common position. */
  predicate Diverges(p: seq<string>, q: seq<string>)
    decreases |p|
  {
    && 0 < |p|
    && 0 < |q|
    && (p[0] != q[0] || Diverges(p[1..], q[1..]))
  }

  /**
   * `createNestedObject(base, names, value)`, returning the updated object.
   * The walk replaces a missing name, or a name holding a non-object, by an
   * empty object (the lemmas below say nothing about the latter case).
   */
  function CreateNestedObject(base: Value, names: seq<string>, value: Value): Value
    decreases |names|
  {
    if |names| == 0 then base
    else
      var props := if base.Obj? then base.props else map[];
      if |names| == 1 then
        Obj(props[names[0] := value])
      else
        var child := if names[0] in props && props[names[0]].Obj? then props[names[0]] else Obj(map[]);
        Obj(props[names[0] := CreateNestedObject(child, names[1..], value)])
  }

  /** On an object, the helper adds the first name to the top-level keys and keeps every other top-level value. */
  lemma CreateNestedObjectTop(base: Value, names: seq<string>, value: Value)
    requires base.Obj? && 0 < |names|
    ensures var r := CreateNestedObject(base, names, value);
            && r.Obj? && r.props.Keys == base.props.Keys + {names[0]}
            && forall k :: k in base.props && k != names[0] ==> r.props[k] == base.props[k]
  {
  }

  /** When every node on the walk is an object, the value is found along `names` afterwards. */
  lemma {:induction false} CreateNestedObjectStores(base: Value, names: seq<string>, value: Value)
    requires 0 < |names| && Walkable(base, names)
    ensures Lookup(CreateNestedObject(base, names, value), names) == Some(value)
    decreases |names|
  {
    if 1 < |names| {
      var child := if names[0] in base.props && base.props[names[0]].Obj? then base.props[names[0]] else Obj(map[]);
      CreateNestedObjectStores(child, names[1..], value);
    }
  }

  /** Storing along `names` keeps every value found along a path that parts from `names`. */
  lemma {:induction false} CreateNestedObjectKeeps(base: Value, names: seq<string>, value: Value, q: seq<string>, y: Value)
    requires Walkable(base, names)
    requires Diverges(names, q)
    requires Lookup(base, q) == Some(y)
    ensures Lookup(CreateNestedObject(base, names, value), q) == Some(y)
    decreases |names|
  {
    var r := CreateNestedObject(base, names, value);
    CreateNestedObjectTop(base, names, value);
    if names[0] != q[0] {
      assert r.props[q[0]] == base.props[q[0]];
    } else {
      var child := base.props[q[0]];
      assert r.props[q[0]] == CreateNestedObject(child, names[1..], value);
      CreateNestedObjectKeeps(child, names[1..], value, q[1..], y);
    }
  }

  /** Parting is symmetric. */
  lemma {:induction false} DivergesSymmetric(p: seq<string>, q: seq<string>)
    requires Diverges(p, q)
    ensures Diverges(q, p)
    decreases |p|
  {
    if p[0] == q[0] {
      DivergesSymmetric(p[1..], q[1..]);
    }
  }
}
