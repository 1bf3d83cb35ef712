/** share and unshare over whole trees (R/share.R, R/unshare.R, R/share-commonFuncs.R). */
module ShareTree {
  import opened Wrappers
  import opened RValues

  datatype Options = Options(sharedAttributes: bool, minLength: nat)

  /** The function that doList, doAttributes and doS4 apply: share with or without mustWork (the
      latter is tryShare), or unshare. */
  datatype Func = Share(mustWork: bool) | Unshare

  function Try(f: Func): Func {
    if f.Share? then Share(false) else f
  }

  predicate ClassOrNames(name: string) {
    name == "class" || name == "names"
  }

  /** The attributes that doAttributes skips. */
  predicate Skipped(name: string) {
    ClassOrNames(name) || name == "levels"
  }

  // ---------- what the functions compute ----------

  /** Nothing, when share fails because of mustWork. */
  function Do(f: Func, o: Options, x: Value): (r: Option<Value>)
    ensures f != Share(true) ==> r.Some?
    decreases x
  {
    match x
    case Null => Some(x)
    case Opaque(_, _) => if f == Share(true) then None else Some(x)
    case Atomic(s4, data, shared, attrs) =>
      if f.Unshare? then
        Some(Atomic(s4, data, false, seq(|attrs|, i requires 0 <= i < |attrs| =>
          Attr(attrs[i].name, Do(f, o, attrs[i].value).value))))
      else
        var attrs' := if o.sharedAttributes then DoAttributes(Try(f), o, attrs) else attrs;
        Some(Atomic(s4, data, shared || |data| >= o.minLength, attrs'))
    case List(s4, elts, attrs) =>
      var g := if s4 then Try(f) else f;
      if exists i :: 0 <= i < |elts| && Do(g, o, elts[i]).None? then None
      else
        var trivial := forall i :: 0 <= i < |attrs| ==> ClassOrNames(attrs[i].name);
        var attrs' := if o.sharedAttributes && !trivial then DoAttributes(Try(f), o, attrs) else attrs;
        Some(List(s4, seq(|elts|, i requires 0 <= i < |elts| => Do(g, o, elts[i]).value), attrs'))
    case S4(slots) =>
      Some(S4(seq(|slots|, i requires 0 <= i < |slots| =>
        Attr(slots[i].name, Do(Try(f), o, slots[i].value).value))))
  }

  function DoAttributes(f: Func, o: Options, attrs: seq<Attr>): (r: seq<Attr>)
    requires f != Share(true)
    ensures |r| == |attrs|
    decreases attrs
  {
    seq(|attrs|, i requires 0 <= i < |attrs| =>
      if Skipped(attrs[i].name) then attrs[i] else Attr(attrs[i].name, Do(f, o, attrs[i].value).value))
  }

  // ---------- the value is preserved ----------

  lemma {:induction false} DoKeepsValue(f: Func, o: Options, x: Value)
    requires Do(f, o, x).Some?
    ensures Erase(Do(f, o, x).value) == Erase(x)
    decreases x
  {
    match x
    case Null =>
    case Opaque(_, _) =>
    case Atomic(s4, data, shared, attrs) =>
      if f.Unshare? {
        forall i | 0 <= i < |attrs| ensures Erase(Do(f, o, attrs[i].value).value) == Erase(attrs[i].value) {
          DoKeepsValue(f, o, attrs[i].value);
        }
      } else {
        DoAttributesKeepsValue(Try(f), o, attrs);
      }
    case List(s4, elts, attrs) =>
      var g := if s4 then Try(f) else f;
      forall i | 0 <= i < |elts| ensures Erase(Do(g, o, elts[i]).value) == Erase(elts[i]) {
        DoKeepsValue(g, o, elts[i]);
      }
      DoAttributesKeepsValue(Try(f), o, attrs);
    case S4(slots) =>
      forall i | 0 <= i < |slots| ensures Erase(Do(Try(f), o, slots[i].value).value) == Erase(slots[i].value) {
        DoKeepsValue(Try(f), o, slots[i].value);
      }
  }

  lemma {:induction false} DoAttributesKeepsValue(f: Func, o: Options, attrs: seq<Attr>)
    requires f != Share(true)
    ensures EraseAttrs(DoAttributes(f, o, attrs)) == EraseAttrs(attrs)
    decreases attrs
  {
    forall i | 0 <= i < |attrs| ensures Erase(Do(f, o, attrs[i].value).value) == Erase(attrs[i].value) {
      DoKeepsValue(f, o, attrs[i].value);
    }
  }

  // ---------- what is shared, and what is not ----------

  /** Whether the function goes on from a value to what is one step below it. */
  predicate Follows(f: Func, o: Options, x: Value, d: Down)
    requires Has(x, d)
  {
    match d
    case Elt(_) => true
    case At(i) =>
      match x
      case S4(_) => true
      case Atomic(_, _, _, attrs) => f.Unshare? || (o.sharedAttributes && !Skipped(attrs[i].name))
      case List(_, _, attrs) => o.sharedAttributes && !Skipped(attrs[i].name)
      case _ => false
  }

  ghost predicate Reaches(f: Func, o: Options, x: Value, path: seq<Down>)
    requires Exists(x, path)
    decreases |path|
  {
    path != [] ==> Follows(f, o, x, path[0]) && Reaches(f, o, Child(x, path[0]), path[1..])
  }

  /** One step below the result lies what the function made of what lay below the argument, if
      it goes there, and otherwise the very same value. */
  lemma ChildOfResult(f: Func, o: Options, x: Value, d: Down) returns (g: Func)
    requires Do(f, o, x).Some? && Has(x, d)
    ensures g == f || g == Try(f)
    ensures Has(Do(f, o, x).value, d)
    ensures Follows(f, o, x, d) ==>
              Do(g, o, Child(x, d)).Some? && Child(Do(f, o, x).value, d) == Do(g, o, Child(x, d)).value
    ensures !Follows(f, o, x, d) ==> Child(Do(f, o, x).value, d) == Child(x, d)
  {
    match d
    case Elt(i) => g := if x.isS4 then Try(f) else f;
    case At(i) => g := Try(f);
  }

  /** share shares exactly the atomics it reaches that are long enough (and leaves shared what
      was), unshare unshares exactly those it reaches; nothing else about a place changes. */
  lemma {:induction false} SharedExactly(f: Func, o: Options, x: Value, path: seq<Down>)
    requires Do(f, o, x).Some? && Exists(x, path)
    ensures Exists(Do(f, o, x).value, path)
    ensures var v, r := Sub(x, path), Sub(Do(f, o, x).value, path);
            && (v.Atomic? <==> r.Atomic?)
            && (v.Atomic? ==>
                  && r.data == v.data && r.isS4 == v.isS4
                  && (r.shared <==> if !Reaches(f, o, x, path) then v.shared
                                    else f.Share? && (v.shared || |v.data| >= o.minLength)))
    decreases |path|
  {
    if path != [] {
      var g := ChildOfResult(f, o, x, path[0]);
      if Follows(f, o, x, path[0]) {
        SharedExactly(g, o, Child(x, path[0]), path[1..]);
        SameReach(f, g, o, Child(x, path[0]), path[1..]);
      }
    }
  }

  // ---------- attributes by name ----------

  /** share takes the attributes of an atomic or a list when its option is on, whatever mustWork
      says, except "class", "names" and "levels", which stay as they are. */
  lemma AttributeOfShared(mustWork: bool, o: Options, x: Value, i: nat)
    requires (x.Atomic? || x.List?) && i < |Attrs(x)| && Do(Share(mustWork), o, x).Some?
    ensures var a, r := Attrs(x)[i], Attrs(Do(Share(mustWork), o, x).value);
            && |r| == |Attrs(x)| && r[i].name == a.name
            && r[i].value == if !o.sharedAttributes || a.name in ["class", "names", "levels"] then a.value
                             else Do(Share(false), o, a.value).value
  {
  }

  /** unshare does the same with the attributes of a list, and takes all attributes of an atomic. */
  lemma AttributeOfUnshared(o: Options, x: Value, i: nat)
    requires (x.Atomic? || x.List?) && i < |Attrs(x)|
    ensures var a, r := Attrs(x)[i], Attrs(Do(Unshare, o, x).value);
            && |r| == |Attrs(x)| && r[i].name == a.name
            && r[i].value == if x.List? && (!o.sharedAttributes || a.name in ["class", "names", "levels"]) then a.value
                             else Do(Unshare, o, a.value).value
  {
  }

  /** Both take every element of a list and every slot of an S4 object. An S4 object forgives what
      cannot be shared in it. */
  lemma ElementsAndSlots(f: Func, o: Options, x: Value, i: nat)
    requires Do(f, o, x).Some?
    ensures x.List? && i < |x.elts| ==>
              var r := Do(f, o, x).value;
              && |r.elts| == |x.elts|
              && Some(r.elts[i]) == Do(if f.Share? && x.isS4 then Share(false) else f, o, x.elts[i])
    ensures x.S4? && i < |x.slots| ==>
              var r := Do(f, o, x).value;
              && |r.slots| == |x.slots| && r.slots[i].name == x.slots[i].name
              && Some(r.slots[i].value) == Do(if f.Share? then Share(false) else f, o, x.slots[i].value)
  {
  }

  /** The path goes through an attribute of that name of an atomic or a list. */
  ghost predicate ThroughName(x: Value, path: seq<Down>, name: string)
    requires Exists(x, path)
    decreases |path|
  {
    path != [] &&
    (((x.Atomic? || x.List?) && path[0].At? && Attrs(x)[path[0].i].name == name)
     || ThroughName(Child(x, path[0]), path[1..], name))
  }

  /** So share changes nothing anywhere below such an attribute. */
  lemma {:induction false} BelowNamesUnchanged(mustWork: bool, o: Options, x: Value, path: seq<Down>, name: string)
    requires Do(Share(mustWork), o, x).Some? && Exists(x, path)
    requires name in ["class", "names", "levels"] && ThroughName(x, path, name)
    ensures var r := Do(Share(mustWork), o, x).value; Exists(r, path) && Sub(r, path) == Sub(x, path)
    decreases |path|
  {
    var d := path[0];
    var g := ChildOfResult(Share(mustWork), o, x, d);
    if (x.Atomic? || x.List?) && d.At? && Attrs(x)[d.i].name == name {
      AttributeOfShared(mustWork, o, x, d.i);
      assert Child(Do(Share(mustWork), o, x).value, d) == Child(x, d);
    } else if Follows(Share(mustWork), o, x, d) {
      BelowNamesUnchanged(g.mustWork, o, Child(x, d), path[1..], name);
    }
  }

  /** mustWork does not change where share goes. */
  lemma {:induction false} SameReach(f: Func, g: Func, o: Options, x: Value, path: seq<Down>)
    requires Exists(x, path) && (f.Share? <==> g.Share?)
    ensures Reaches(f, o, x, path) <==> Reaches(g, o, x, path)
    decreases |path|
  {
    if path != [] { SameReach(f, g, o, Child(x, path[0]), path[1..]); }
  }

  // ---------- mustWork ----------

  /** The path goes through list elements alone, of lists that are not S4 objects. */
  ghost predicate PlainElements(x: Value, path: seq<Down>)
    requires Exists(x, path)
    decreases |path|
  {
    path != [] ==> path[0].Elt? && !x.isS4 && PlainElements(Child(x, path[0]), path[1..])
  }

  ghost predicate BadLeaf(x: Value, path: seq<Down>) {
    Exists(x, path) && PlainElements(x, path) && Sub(x, path).Opaque?
  }

  lemma {:induction false} FailureHasABadLeaf(o: Options, x: Value) returns (path: seq<Down>)
    requires Do(Share(true), o, x).None?
    ensures BadLeaf(x, path)
    decreases x
  {
    path := [];
    if x.List? {
      var i :| 0 <= i < |x.elts| && Do(if x.isS4 then Share(false) else Share(true), o, x.elts[i]).None?;
      var rest := FailureHasABadLeaf(o, x.elts[i]);
      path := [Elt(i)] + rest;
      assert path[1..] == rest;
    }
  }

  lemma {:induction false} BadLeafFails(o: Options, x: Value, path: seq<Down>)
    requires BadLeaf(x, path)
    ensures Do(Share(true), o, x).None?
    decreases |path|
  {
    if path != [] { BadLeafFails(o, Child(x, path[0]), path[1..]); }
  }

  /** With mustWork, share fails exactly when something other than NULL that cannot be shared is
      reached through list elements alone; what attributes and S4 objects hold is forgiven. */
  lemma MustWorkFailsIff(o: Options, x: Value)
    ensures Do(Share(true), o, x).None? <==> exists path :: BadLeaf(x, path)
  {
    if Do(Share(true), o, x).None? {
      var path := FailureHasABadLeaf(o, x);
    }
    if path :| BadLeaf(x, path) {
      BadLeafFails(o, x, path);
    }
  }

  // ---------- unshare undoes share ----------

  lemma {:induction false} ErasedIsUnshared(x: Value, path: seq<Down>)
    requires Erase(x) == x && Exists(x, path)
    ensures !SharedAt(x, path)
    decreases |path|
  {
    if path != [] {
      ErasedChild(x, path[0]);
      ErasedIsUnshared(Child(x, path[0]), path[1..]);
    }
  }

  lemma ErasedChild(x: Value, d: Down)
    requires Erase(x) == x && Has(x, d)
    ensures Erase(Child(x, d)) == Child(x, d)
  {
    match d
    case Elt(i) => assert Erase(x).elts[i] == Erase(x.elts[i]);
    case At(i) => assert Attrs(Erase(x))[i].value == Erase(Attrs(x)[i].value);
  }

  /** A tree with no shared place is its own erasure. */
  lemma {:induction false} UnsharedIsErased(x: Value)
    requires forall path :: !SharedAt(x, path)
    ensures Erase(x) == x
    decreases x
  {
    forall d, path | Has(x, d) ensures !SharedAt(Child(x, d), path) {
      assert ([d] + path)[1..] == path;
      assert !SharedAt(x, [d] + path);
    }
    assert !SharedAt(x, []);
    forall i | 0 <= i < |Attrs(x)| ensures Erase(Attrs(x)[i].value) == Attrs(x)[i].value {
      assert Has(x, At(i));
      assert Child(x, At(i)) == Attrs(x)[i].value;
      UnsharedIsErased(Attrs(x)[i].value);
    }
    if x.List? {
      forall i | 0 <= i < |x.elts| ensures Erase(x.elts[i]) == x.elts[i] {
        assert Has(x, Elt(i));
        assert Child(x, Elt(i)) == x.elts[i];
        UnsharedIsErased(x.elts[i]);
      }
    }
    assert EraseAttrs(Attrs(x)) == Attrs(x);
  }

  /** Erasing changes neither the places of a tree nor where the functions go. */
  lemma {:induction false} ErasureKeepsPlaces(f: Func, o: Options, x: Value, path: seq<Down>)
    ensures Exists(x, path) <==> Exists(Erase(x), path)
    ensures Exists(x, path) ==> (Reaches(f, o, x, path) <==> Reaches(f, o, Erase(x), path))
    decreases |path|
  {
    if path != [] {
      assert Has(x, path[0]) <==> Has(Erase(x), path[0]);
      if Has(x, path[0]) {
        assert Child(Erase(x), path[0]) == Erase(Child(x, path[0]));
        ErasureKeepsPlaces(f, o, Child(x, path[0]), path[1..]);
      }
    }
  }

  /** Places that share will make shared. */
  ghost predicate WillShare(o: Options, x: Value, path: seq<Down>) {
    Exists(x, path) && Reaches(Share(false), o, x, path) && Sub(x, path).Atomic? && |Sub(x, path).data| >= o.minLength
  }

  /** The path goes through an attribute of a list. */
  ghost predicate ThroughListAttribute(x: Value, path: seq<Down>)
    requires Exists(x, path)
    decreases |path|
  {
    path != [] && ((x.List? && path[0].At?) || ThroughListAttribute(Child(x, path[0]), path[1..]))
  }

  /** Where share went, unshare goes too, except for attributes of lists when its option is off. */
  lemma {:induction false} UnshareFollowsShare(o: Options, o': Options, x: Value, path: seq<Down>)
    requires Exists(x, path) && Reaches(Share(false), o, x, path)
    ensures Reaches(Unshare, o', x, path) <==> o'.sharedAttributes || !ThroughListAttribute(x, path)
    decreases |path|
  {
    if path != [] { UnshareFollowsShare(o, o', Child(x, path[0]), path[1..]); }
  }

  /** What remains shared after share and unshare of an unshared tree. */
  lemma StillSharedIff(mustWork: bool, o: Options, o': Options, x: Value, path: seq<Down>)
    requires Erase(x) == x && Do(Share(mustWork), o, x).Some?
    ensures SharedAt(Do(Unshare, o', Do(Share(mustWork), o, x).value).value, path)
            <==> WillShare(o, x, path) && !o'.sharedAttributes && ThroughListAttribute(x, path)
  {
    var y := Do(Share(mustWork), o, x).value;
    var z := Do(Unshare, o', y).value;
    DoKeepsValue(Share(mustWork), o, x);
    DoKeepsValue(Unshare, o', y);
    ErasureKeepsPlaces(Unshare, o', y, path);
    ErasureKeepsPlaces(Unshare, o', z, path);
    if Exists(x, path) {
      ErasedIsUnshared(x, path);
      SharedExactly(Share(mustWork), o, x, path);
      SharedExactly(Unshare, o', y, path);
      SameReach(Share(mustWork), Share(false), o, x, path);
      if Reaches(Share(false), o, x, path) { UnshareFollowsShare(o, o', x, path); }
    }
  }

  /** A list whose one attribute is a vector of two elements: shared with attributes and unshared
      without, it keeps a shared attribute. */
  lemma UnshareMissesListAttribute()
    ensures var x := List(false, [], [Attr("note", Atomic(false, [1, 2], false, []))]);
            var o, o' := Options(true, 2), Options(false, 2);
            && Erase(x) == x && Do(Share(true), o, x).Some?
            && Do(Unshare, o', Do(Share(true), o, x).value).value
               == List(false, [], [Attr("note", Atomic(false, [1, 2], true, []))])
  {
    var v := Atomic(false, [1, 2], false, []);
    var x := List(false, [], [Attr("note", v)]);
    var o, o' := Options(true, 2), Options(false, 2);
    var y := List(false, [], [Attr("note", Atomic(false, [1, 2], true, []))]);
    assert DoAttributes(Share(false), o, []) == [] && EraseAttrs([]) == [];
    assert Do(Share(false), o, v) == Some(Atomic(false, [1, 2], true, []));
    assert !ClassOrNames(x.attrs[0].name) && !Skipped(x.attrs[0].name);
    assert DoAttributes(Share(false), o, x.attrs) == y.attrs;
    assert Do(Share(true), o, x).value.elts == [] && Do(Unshare, o', y).value.elts == [];
    assert EraseAttrs(x.attrs) == x.attrs;
  }

  /** unshare gives back the unshared tree that was shared if and only if its sharedAttributes
      option is on, or share had shared nothing inside an attribute of a list. */
  lemma UnshareUndoesShareIff(mustWork: bool, o: Options, o': Options, x: Value)
    requires Erase(x) == x && Do(Share(mustWork), o, x).Some?
    ensures Do(Unshare, o', Do(Share(mustWork), o, x).value).value == x
            <==> o'.sharedAttributes || forall path :: WillShare(o, x, path) ==> !ThroughListAttribute(x, path)
  {
    var y := Do(Share(mustWork), o, x).value;
    var z := Do(Unshare, o', y).value;
    DoKeepsValue(Share(mustWork), o, x);
    DoKeepsValue(Unshare, o', y);
    forall path
      ensures SharedAt(z, path) <==> WillShare(o, x, path) && !o'.sharedAttributes && ThroughListAttribute(x, path)
    {
      StillSharedIff(mustWork, o, o', x, path);
    }
    if o'.sharedAttributes || forall path :: WillShare(o, x, path) ==> !ThroughListAttribute(x, path) {
      UnsharedIsErased(z);
    } else {
      var path :| WillShare(o, x, path) && ThroughListAttribute(x, path);
      assert SharedAt(z, path);
      ErasedIsUnshared(x, path);
    }
  }
}
