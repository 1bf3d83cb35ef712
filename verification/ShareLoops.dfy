/**
  The loops of share and unshare (R/share-commonFuncs.R, R/share.R, R/unshare.R): each works on
  a local copy of the elements, attributes or slots and replaces them one by one. An S4 object
  that is an atomic or a list loses its S4 bit for the call and gets it back.
 */
module ShareLoops {
  import opened Wrappers
  import opened RValues
  import opened ShareTree

  /** The dispatch of shareANY and unshareANY. */
  method Run(f: Func, o: Options, x: Value) returns (r: Option<Value>)
    ensures r == Do(f, o, x)
    decreases x, 2
  {
    match x
    case S4(slots) =>
      var slots' := RunSlots(Try(f), o, slots);
      assert Do(f, o, x).value.slots == slots';
      r := Some(S4(slots'));
    case Atomic(_, _, _, _) =>
      r := RunAtomic(f, o, x);
    case List(_, _, _) =>
      r := RunList(f, o, x);
    case Opaque(_, _) =>
      r := if f == Share(true) then None else Some(x);
    case Null =>
      r := Some(x);
  }

  method RunAtomic(f: Func, o: Options, x: Value) returns (r: Option<Value>)
    requires x.Atomic?
    ensures r == Do(f, o, x)
    decreases x, 1
  {
    if f.Unshare? {
      // the attributes are unshared as the list they are
      var attrs := RunSlots(f, o, x.attrs);
      assert Do(f, o, x).value.attrs == attrs;
      return Some(Atomic(x.isS4, x.data, false, attrs));
    }
    var attrs := x.attrs;
    if o.sharedAttributes {
      attrs := RunAttributes(Try(f), o, x.attrs);
    }
    if |x.data| >= o.minLength {
      r := Some(Atomic(x.isS4, x.data, true, attrs));
    } else {
      r := Some(Atomic(x.isS4, x.data, x.shared, attrs));
    }
  }

  method RunList(f: Func, o: Options, x: Value) returns (r: Option<Value>)
    requires x.List?
    ensures r == Do(f, o, x)
    decreases x, 1
  {
    var g := if x.isS4 then Try(f) else f;
    var elts := x.elts;
    for i := 0 to |x.elts|
      invariant |elts| == |x.elts| && elts[i..] == x.elts[i..]
      invariant forall j :: 0 <= j < i ==> Do(g, o, x.elts[j]) == Some(elts[j])
    {
      var e := Run(g, o, x.elts[i]);
      if e.None? {
        return None;
      }
      elts := elts[i := e.value];
    }
    var attrs := x.attrs;
    if o.sharedAttributes {
      var trivial := forall i :: 0 <= i < |x.attrs| ==> ClassOrNames(x.attrs[i].name);
      if !trivial {
        attrs := RunAttributes(Try(f), o, x.attrs);
      }
    }
    assert Do(f, o, x).value.elts == elts;
    r := Some(List(x.isS4, elts, attrs));
  }

  method RunAttributes(f: Func, o: Options, attrs: seq<Attr>) returns (r: seq<Attr>)
    requires f != Share(true)
    ensures r == DoAttributes(f, o, attrs)
    decreases attrs, 0
  {
    r := attrs;
    for i := 0 to |attrs|
      invariant |r| == |attrs| && r[i..] == attrs[i..]
      invariant forall j :: 0 <= j < i ==> r[j] == DoAttributes(f, o, attrs)[j]
    {
      if !Skipped(attrs[i].name) {
        var v := Run(f, o, attrs[i].value);
        r := r[i := Attr(attrs[i].name, v.value)];
      }
    }
  }

  method RunSlots(f: Func, o: Options, slots: seq<Attr>) returns (r: seq<Attr>)
    requires f != Share(true)
    ensures |r| == |slots|
    ensures forall j :: 0 <= j < |slots| ==> r[j] == Attr(slots[j].name, Do(f, o, slots[j].value).value)
    decreases slots, 0
  {
    r := slots;
    for i := 0 to |slots|
      invariant |r| == |slots|
      invariant forall j :: 0 <= j < i ==> r[j] == Attr(slots[j].name, Do(f, o, slots[j].value).value)
    {
      var v := Run(f, o, slots[i].value);
      r := r[i := Attr(slots[i].name, v.value)];
    }
  }
}
