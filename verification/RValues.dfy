/** R values as share, unshare and is.shared see them: trees of atomics, lists and attributes. */
module RValues {
  /** `isS4` is the S4 bit of an atomic or list that carries slots among its attributes; `S4` is
      an S4 object that is nothing but slots. `Opaque` is anything that cannot be shared, such
      as a function or a symbol. */
  datatype Value =
    | Null
    | Atomic(isS4: bool, data: seq<int>, shared: bool, attrs: seq<Attr>)
    | List(isS4: bool, elts: seq<Value>, attrs: seq<Attr>)
    | S4(slots: seq<Attr>)
    | Opaque(tag: nat, attrs: seq<Attr>)

  datatype Attr = Attr(name: string, value: Value)

  /** The attributes (of an S4 object: the slots) of a value. */
  function Attrs(x: Value): seq<Attr> {
    match x
    case Null => []
    case Atomic(_, _, _, attrs) => attrs
    case List(_, _, attrs) => attrs
    case S4(slots) => slots
    case Opaque(_, attrs) => attrs
  }

  /** The same value with nothing shared. */
  ghost function Erase(x: Value): Value {
    match x
    case Null => x
    case Atomic(s4, data, _, attrs) => Atomic(s4, data, false, EraseAttrs(attrs))
    case List(s4, elts, attrs) =>
      List(s4, seq(|elts|, i requires 0 <= i < |elts| => Erase(elts[i])), EraseAttrs(attrs))
    case S4(slots) => S4(EraseAttrs(slots))
    case Opaque(tag, attrs) => Opaque(tag, EraseAttrs(attrs))
  }

  ghost function EraseAttrs(attrs: seq<Attr>): (r: seq<Attr>)
    ensures |r| == |attrs|
    ensures forall i :: 0 <= i < |attrs| ==> r[i] == Attr(attrs[i].name, Erase(attrs[i].value))
  {
    seq(|attrs|, i requires 0 <= i < |attrs| => Attr(attrs[i].name, Erase(attrs[i].value)))
  }

  // ---------- places in a tree ----------

  /** One step down: to a list element, or to an attribute or slot. */
  datatype Down = Elt(i: nat) | At(i: nat)

  predicate Has(x: Value, d: Down) {
    match d
    case Elt(i) => x.List? && i < |x.elts|
    case At(i) => i < |Attrs(x)|
  }

  function Child(x: Value, d: Down): Value
    requires Has(x, d)
  {
    match d
    case Elt(i) => x.elts[i]
    case At(i) => Attrs(x)[i].value
  }

  ghost predicate Exists(x: Value, path: seq<Down>)
    decreases |path|
  {
    path != [] ==> Has(x, path[0]) && Exists(Child(x, path[0]), path[1..])
  }

  ghost function Sub(x: Value, path: seq<Down>): Value
    requires Exists(x, path)
    decreases |path|
  {
    if path == [] then x else Sub(Child(x, path[0]), path[1..])
  }

  ghost predicate SharedAt(x: Value, path: seq<Down>) {
    Exists(x, path) && Sub(x, path).Atomic? && Sub(x, path).shared
  }
}
