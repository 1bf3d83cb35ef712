/** Asking what is shared (R/is.shared.R). */
module IsSharedReport {
  import opened Wrappers
  import opened RValues

  /** One logical, or a list with one report per element or slot. */
  datatype Report = Leaf(shared: bool) | Node(kids: seq<Report>)

  /** any(unlist(report)) */
  function Any(r: Report): bool {
    match r
    case Leaf(shared) => shared
    case Node(kids) => exists i :: 0 <= i < |kids| && Any(kids[i])
  }

  /** At depth zero and below a list of reports collapses into one logical. */
  function Collapse(depth: int, r: Report): Report {
    if depth <= 0 then Leaf(Any(r)) else r
  }

  /** The slots of an S4 object that has a data part are its attributes but for its class. */
  function SlotReports(slots: seq<Attr>, all: bool, depth: int): (r: seq<Report>)
    decreases slots
  {
    if slots == [] then []
    else
      var rest := SlotReports(slots[..|slots| - 1], all, depth);
      var last := slots[|slots| - 1];
      if !all && last.name == "class" then rest else rest + [IsShared(last.value, depth)]
  }

  function ElementReports(elts: seq<Value>, depth: int): (r: seq<Report>)
    ensures |r| == |elts|
    ensures forall i :: 0 <= i < |elts| ==> r[i] == IsShared(elts[i], depth)
    decreases elts
  {
    seq(|elts|, i requires 0 <= i < |elts| => IsShared(elts[i], depth))
  }

  function IsShared(x: Value, depth: int): Report
    decreases x
  {
    match x
    case S4(slots) => Collapse(depth, Node(SlotReports(slots, true, depth - 1)))
    case Atomic(s4, _, shared, attrs) =>
      if s4 then Collapse(depth, Node([Leaf(shared)] + SlotReports(attrs, false, depth - 1)))
      else Leaf(shared)
    case List(s4, elts, attrs) =>
      if s4 then
        // the data part is a list of its own, one level down
        var data := Collapse(depth - 1, Node(ElementReports(elts, depth - 2)));
        Collapse(depth, Node([data] + SlotReports(attrs, false, depth - 1)))
      else
        Collapse(depth, Node(ElementReports(elts, depth - 1)))
    case _ => Leaf(false)
  }

  // ---------- what it is to report ----------

  /** Steps that is.shared takes: to list elements, and to the slots of S4 objects. */
  predicate Looks(x: Value, d: Down)
    requires Has(x, d)
  {
    match d
    case Elt(_) => true
    case At(i) =>
      match x
      case S4(_) => true
      case Atomic(s4, _, _, attrs) => s4 && attrs[i].name != "class"
      case List(s4, _, attrs) => s4 && attrs[i].name != "class"
      case _ => false
  }

  ghost predicate Finds(x: Value, path: seq<Down>)
    decreases |path|
  {
    if path == [] then x.Atomic? && x.shared
    else Has(x, path[0]) && Looks(x, path[0]) && Finds(Child(x, path[0]), path[1..])
  }

  ghost predicate ContainsShared(x: Value) {
    exists path :: Finds(x, path)
  }

  lemma {:induction false} AnySlot(slots: seq<Attr>, all: bool, depth: int)
    ensures Any(Node(SlotReports(slots, all, depth))) <==>
            exists i :: 0 <= i < |slots| && (all || slots[i].name != "class") && Any(IsShared(slots[i].value, depth))
    decreases |slots|
  {
    if slots != [] {
      var last := |slots| - 1;
      var rest := SlotReports(slots[..last], all, depth);
      AnySlot(slots[..last], all, depth);
      assert forall i :: 0 <= i < last ==> slots[..last][i] == slots[i];
      if all || slots[last].name != "class" {
        var kids := SlotReports(slots, all, depth);
        assert kids == rest + [IsShared(slots[last].value, depth)];
        AnyAppend(rest, IsShared(slots[last].value, depth));
      }
    }
  }

  lemma AnyAppend(kids: seq<Report>, r: Report)
    ensures Any(Node(kids + [r])) <==> Any(Node(kids)) || Any(r)
    ensures Any(Node([r] + kids)) <==> Any(Node(kids)) || Any(r)
  {
    assert (kids + [r])[|kids|] == r && ([r] + kids)[0] == r;
    forall i | 0 <= i < |kids| ensures (kids + [r])[i] == kids[i] && ([r] + kids)[i + 1] == kids[i] {}
    if Any(Node(kids)) {
      var i :| 0 <= i < |kids| && Any(kids[i]);
      assert Any((kids + [r])[i]) && Any(([r] + kids)[i + 1]);
    }
  }

  /** A shared atomic is found here, or one step further down. */
  lemma FoundHereOrBelow(x: Value)
    ensures ContainsShared(x) <==>
            (x.Atomic? && x.shared) || exists d :: Has(x, d) && Looks(x, d) && ContainsShared(Child(x, d))
  {
    if ContainsShared(x) {
      var path :| Finds(x, path);
      if path != [] {
        var d := path[0];
        assert Has(x, d) && Looks(x, d) && Finds(Child(x, d), path[1..]);
        assert ContainsShared(Child(x, d));
      }
    }
    if x.Atomic? && x.shared {
      assert Finds(x, []);
    }
    if d :| Has(x, d) && Looks(x, d) && ContainsShared(Child(x, d)) {
      var rest :| Finds(Child(x, d), rest);
      assert ([d] + rest)[1..] == rest;
      assert Finds(x, [d] + rest);
    }
  }

  lemma {:induction false} AnyElement(x: Value, depth: int)
    requires x.List?
    ensures Any(Node(ElementReports(x.elts, depth)))
            <==> exists i :: 0 <= i < |x.elts| && ContainsShared(x.elts[i])
    decreases x, 0
  {
    forall i | 0 <= i < |x.elts| ensures Any(IsShared(x.elts[i], depth)) <==> ContainsShared(x.elts[i]) {
      AnyIsContained(x.elts[i], depth);
    }
  }

  lemma {:induction false} AnySlotContained(x: Value, all: bool, depth: int)
    requires !x.Null?
    ensures Any(Node(SlotReports(Attrs(x), all, depth))) <==>
            exists i :: 0 <= i < |Attrs(x)| && (all || Attrs(x)[i].name != "class") && ContainsShared(Attrs(x)[i].value)
    decreases x, 0
  {
    AnySlot(Attrs(x), all, depth);
    forall i | 0 <= i < |Attrs(x)|
      ensures Any(IsShared(Attrs(x)[i].value, depth)) <==> ContainsShared(Attrs(x)[i].value)
    {
      AnyIsContained(Attrs(x)[i].value, depth);
    }
  }

  /** At every depth, some leaf of the report is true exactly when a shared atomic is contained. */
  lemma {:induction false} AnyIsContained(x: Value, depth: int)
    ensures Any(IsShared(x, depth)) <==> ContainsShared(x)
    decreases x, 1
  {
    FoundHereOrBelow(x);
    StepsOf(x);
    match x
    case S4(slots) => AnySlotContained(x, true, depth - 1);
    case Atomic(s4, _, shared, attrs) =>
      if s4 {
        AnySlotContained(x, false, depth - 1);
        AnyAppend(SlotReports(attrs, false, depth - 1), Leaf(shared));
      }
    case List(s4, elts, attrs) =>
      if s4 {
        AnySlotContained(x, false, depth - 1);
        AnyElement(x, depth - 2);
        var data := Collapse(depth - 1, Node(ElementReports(elts, depth - 2)));
        AnyAppend(SlotReports(attrs, false, depth - 1), data);
      } else {
        AnyElement(x, depth - 1);
      }
    case _ =>
  }

  /** The steps below a value, element by element and slot by slot. */
  lemma StepsOf(x: Value)
    ensures (exists d :: Has(x, d) && Looks(x, d) && ContainsShared(Child(x, d))) <==>
            (x.List? && exists i :: 0 <= i < |x.elts| && ContainsShared(x.elts[i]))
            || exists i :: 0 <= i < |Attrs(x)| && Looks(x, At(i)) && ContainsShared(Attrs(x)[i].value)
  {
    if x.List? {
      if i :| 0 <= i < |x.elts| && ContainsShared(x.elts[i]) {
        assert Has(x, Elt(i)) && Child(x, Elt(i)) == x.elts[i];
      }
    }
    if i :| 0 <= i < |Attrs(x)| && Looks(x, At(i)) && ContainsShared(Attrs(x)[i].value) {
      assert Has(x, At(i)) && Child(x, At(i)) == Attrs(x)[i].value;
    }
  }

  /** is.shared is consistent across depths: at depth zero or below it is one logical, which says
      whether a shared atomic is contained, and OR-ing the leaves at any depth gives that logical. */
  lemma IsSharedIsConsistent(x: Value, depth: int)
    ensures IsShared(x, 0) == Leaf(ContainsShared(x))
    ensures depth <= 0 ==> IsShared(x, depth) == IsShared(x, 0)
    ensures Any(IsShared(x, depth)) == IsShared(x, 0).shared
  {
    AnyIsContained(x, depth);
    AnyIsContained(x, 0);
  }

  // ---------- the shape of a report ----------

  /** The report of a plain list at a positive depth: one entry for each element, in order, each one
      level less deep. */
  lemma ListReport(x: Value, depth: int)
    requires x.List? && !x.isS4 && depth > 0
    ensures var r := IsShared(x, depth);
            && r.Node? && |r.kids| == |x.elts|
            && forall i :: 0 <= i < |x.elts| ==>
                 r.kids[i] == IsShared(x.elts[i], depth - 1) && (Any(r.kids[i]) <==> ContainsShared(x.elts[i]))
  {
    forall i | 0 <= i < |x.elts| ensures Any(IsShared(x.elts[i], depth - 1)) <==> ContainsShared(x.elts[i]) {
      AnyIsContained(x.elts[i], depth - 1);
    }
  }

  /** Where the report of slot `i` stands among those of the slots. */
  function SlotPlace(slots: seq<Attr>, all: bool, i: nat): nat
    requires i <= |slots|
  {
    if i == 0 then 0
    else SlotPlace(slots, all, i - 1) + if all || slots[i - 1].name != "class" then 1 else 0
  }

  lemma {:induction false} SlotPlaceInPrefix(slots: seq<Attr>, all: bool, n: nat, i: nat)
    requires i <= n <= |slots|
    ensures SlotPlace(slots[..n], all, i) == SlotPlace(slots, all, i) <= SlotPlace(slots, all, n)
    decreases n + i
  {
    if i > 0 { SlotPlaceInPrefix(slots, all, n, i - 1); }
    if i < n { SlotPlaceInPrefix(slots, all, n - 1, i); }
  }

  /** One report for every slot (but the class, where there is a data part), each in its place. */
  lemma {:induction false} SlotReportAt(slots: seq<Attr>, all: bool, depth: int, i: nat)
    requires i < |slots| && (all || slots[i].name != "class")
    ensures |SlotReports(slots, all, depth)| == SlotPlace(slots, all, |slots|)
    ensures SlotPlace(slots, all, i) < |SlotReports(slots, all, depth)|
    ensures SlotReports(slots, all, depth)[SlotPlace(slots, all, i)] == IsShared(slots[i].value, depth)
    decreases |slots|
  {
    var last := |slots| - 1;
    SlotReportsCount(slots, all, depth);
    SlotReportsCount(slots[..last], all, depth);
    SlotPlaceInPrefix(slots, all, last, last);
    SlotPlaceInPrefix(slots, all, last, i);
    if i < last {
      SlotReportAt(slots[..last], all, depth, i);
    }
  }

  lemma {:induction false} SlotReportsCount(slots: seq<Attr>, all: bool, depth: int)
    ensures |SlotReports(slots, all, depth)| == SlotPlace(slots, all, |slots|)
    decreases |slots|
  {
    if slots != [] {
      var last := |slots| - 1;
      SlotReportsCount(slots[..last], all, depth);
      SlotPlaceInPrefix(slots, all, last, last);
    }
  }

  /** The report of an S4 object with a data part begins with that part. */
  lemma DataPartReport(x: Value, depth: int)
    requires (x.Atomic? || x.List?) && x.isS4 && depth > 0
    ensures var r := IsShared(x, depth);
            && r.Node? && |r.kids| == 1 + SlotPlace(x.attrs, false, |x.attrs|)
            && (x.Atomic? ==> r.kids[0] == Leaf(x.shared))
            && (x.List? ==> r.kids[0] == IsShared(List(false, x.elts, []), depth - 1))
  {
    SlotReportsCount(x.attrs, false, depth - 1);
  }

  /** Where the report of what is one step down stands in the report. The elements of an S4 list
      are two levels down, in the report of its data part. */
  function Place(x: Value, d: Down): seq<nat>
    requires Has(x, d) && Looks(x, d)
  {
    match d
    case Elt(i) => if x.isS4 then [0, i] else [i]
    case At(i) => if x.S4? then [SlotPlace(x.slots, true, i)] else [1 + SlotPlace(x.attrs, false, i)]
  }

  function Entry(r: Report, place: seq<nat>): Option<Report>
    decreases |place|
  {
    if place == [] then Some(r)
    else if r.Node? && place[0] < |r.kids| then Entry(r.kids[place[0]], place[1..])
    else None
  }

  lemma {:induction false} EntryOfEntry(r: Report, p: seq<nat>, q: seq<nat>)
    requires Entry(r, p).Some?
    ensures Entry(r, p + q) == Entry(Entry(r, p).value, q)
    decreases |p|
  {
    if p == [] {
      assert p + q == q;
    } else {
      assert (p + q)[0] == p[0] && (p + q)[1..] == p[1..] + q;
      EntryOfEntry(r.kids[p[0]], p[1..], q);
    }
  }

  /** One step down in the value is one place down in the report, if the depth allows it. */
  lemma StepReport(x: Value, d: Down, depth: int)
    requires Has(x, d) && Looks(x, d) && |Place(x, d)| <= depth
    ensures Entry(IsShared(x, depth), Place(x, d)) == Some(IsShared(Child(x, d), depth - |Place(x, d)|))
  {
    match d
    case Elt(i) =>
      if x.isS4 {
        var data := Node(ElementReports(x.elts, depth - 2));
        assert Entry(data, [i]) == Some(data.kids[i]);
        assert [0, i][1..] == [i];
      } else {
        var r := Node(ElementReports(x.elts, depth - 1));
        assert Entry(r, [i]) == Some(r.kids[i]);
      }
    case At(i) =>
      if x.S4? {
        SlotReportAt(x.slots, true, depth - 1, i);
      } else {
        SlotReportAt(x.attrs, false, depth - 1, i);
      }
  }

  ghost predicate LooksAlong(x: Value, path: seq<Down>)
    decreases |path|
  {
    path != [] ==> Has(x, path[0]) && Looks(x, path[0]) && LooksAlong(Child(x, path[0]), path[1..])
  }

  ghost function PlaceOf(x: Value, path: seq<Down>): seq<nat>
    requires LooksAlong(x, path)
    decreases |path|
  {
    if path == [] then [] else Place(x, path[0]) + PlaceOf(Child(x, path[0]), path[1..])
  }

  /** For every path that is.shared looks along, no longer than the depth: the report has an entry
      for it, in its own place; it is the report of the value at the end of the path at the depth
      that remains; it says whether a shared atomic is contained there; and where the depth is used
      up it is a single logical. */
  lemma {:induction false} ReportAlongPath(x: Value, path: seq<Down>, depth: int)
    requires LooksAlong(x, path) && |PlaceOf(x, path)| <= depth
    ensures Exists(x, path)
    ensures var r := IsShared(Sub(x, path), depth - |PlaceOf(x, path)|);
            && Entry(IsShared(x, depth), PlaceOf(x, path)) == Some(r)
            && (Any(r) <==> ContainsShared(Sub(x, path)))
            && (|PlaceOf(x, path)| == depth ==> r == Leaf(ContainsShared(Sub(x, path))))
    decreases |path|
  {
    if path == [] {
      AnyIsContained(x, depth);
    } else {
      var d, y := path[0], Child(x, path[0]);
      StepReport(x, d, depth);
      ReportAlongPath(y, path[1..], depth - |Place(x, d)|);
      EntryOfEntry(IsShared(x, depth), Place(x, d), PlaceOf(y, path[1..]));
    }
  }

  // ---------- the loops ----------

  method Check(x: Value, depth: int) returns (r: Report)
    ensures r == IsShared(x, depth)
    decreases x, 1
  {
    match x
    case S4(slots) =>
      var kids := CheckSlots(slots, true, depth - 1);
      r := Collapse(depth, Node(kids));
    case Atomic(s4, _, shared, attrs) =>
      if s4 {
        var kids := CheckSlots(attrs, false, depth - 1);
        r := Collapse(depth, Node([Leaf(shared)] + kids));
      } else {
        r := Leaf(shared);
      }
    case List(s4, elts, attrs) =>
      if s4 {
        var data := CheckElements(elts, depth - 2);
        var kids := CheckSlots(attrs, false, depth - 1);
        r := Collapse(depth, Node([Collapse(depth - 1, Node(data))] + kids));
      } else {
        var kids := CheckElements(elts, depth - 1);
        r := Collapse(depth, Node(kids));
      }
    case _ =>
      r := Leaf(false);
  }

  method CheckElements(elts: seq<Value>, depth: int) returns (r: seq<Report>)
    ensures r == ElementReports(elts, depth)
    decreases elts, 0
  {
    r := [];
    for i := 0 to |elts|
      invariant |r| == i && forall j :: 0 <= j < i ==> r[j] == IsShared(elts[j], depth)
    {
      var kid := Check(elts[i], depth);
      r := r + [kid];
    }
  }

  method CheckSlots(slots: seq<Attr>, all: bool, depth: int) returns (r: seq<Report>)
    ensures r == SlotReports(slots, all, depth)
    decreases slots, 0
  {
    r := [];
    for i := 0 to |slots|
      invariant r == SlotReports(slots[..i], all, depth)
    {
      assert slots[..i + 1][..i] == slots[..i];
      if all || slots[i].name != "class" {
        var kid := Check(slots[i].value, depth);
        r := r + [kid];
      }
    }
    assert slots[..|slots|] == slots;
  }
}
