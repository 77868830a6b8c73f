// ExtensionManager (src/extensions.rs:30-525): two parallel vectors per
// extension point that together stand for a table from handle to extension.
module Extensions {
  import opened Wrappers

  type Address = nat
  type Handle = nat

  // An extension: its variant, which matters by the point it belongs to, and
  // the address of the object it holds.
  datatype ExtensionKind = ExtensionKind(point: string, at: Address)

  datatype ExtensionError = UnknownPoint | WrongKind

  // Which points take more than one extension.
  const BUILT_IN_POINTS: map<string, bool> := map[
    "discoverer" := false,
    "middleware" := true,
    "acl" := false,
    "span_exporter" := true,
    "module_validator" := false,
    "approval_handler" := false]

  type Table = map<Handle, ExtensionKind>

  ghost predicate Ascending(hs: seq<Handle>) {
    forall i, j :: 0 <= i < j < |hs| ==> hs[i] < hs[j]
  }

  // The two vectors of point `p` are its part of the table, by handle.
  ghost predicate PointOk(p: string, es: seq<ExtensionKind>, hs: seq<Handle>, table: Table) {
    && |es| == |hs| && Ascending(hs)
    && (forall i {:trigger hs[i]} :: 0 <= i < |hs| ==> hs[i] in table && table[hs[i]] == es[i] && es[i].point == p)
    && (forall h :: h in table && table[h].point == p ==> h in hs)
  }

  // A point's vectors are determined by the table: `get_all` is the table's
  // extensions of that point in the order they were registered.
  lemma {:induction false} VectorsAreTheTable(p: string, es: seq<ExtensionKind>, hs: seq<Handle>,
                                             fs: seq<ExtensionKind>, gs: seq<Handle>, table: Table)
    requires PointOk(p, es, hs, table) && PointOk(p, fs, gs, table)
    ensures es == fs && hs == gs
  {
    forall h ensures h in hs <==> h in gs {
      if h in hs { var i :| 0 <= i < |hs| && hs[i] == h; }
      if h in gs { var i :| 0 <= i < |gs| && gs[i] == h; }
    }
    AscendingIsUnique(hs, gs);
    forall i | 0 <= i < |es| ensures es[i] == fs[i] {
      assert es[i] == table[hs[i]] && fs[i] == table[gs[i]];
    }
  }

  lemma {:induction false} AscendingIsUnique(a: seq<Handle>, b: seq<Handle>)
    requires Ascending(a) && Ascending(b) && forall h :: h in a <==> h in b
    ensures a == b
  {
    assert a != [] ==> a[0] in b;
    assert b != [] ==> b[0] in a;
    if a != [] {
      assert a[0] == b[0];
      forall h ensures h in a[1..] <==> h in b[1..] {
        assert h in a <==> h in b;
        assert h in a[1..] ==> h > a[0];
        assert h in b[1..] ==> h > b[0];
      }
      AscendingIsUnique(a[1..], b[1..]);
    }
  }

  function RemoveAt<X>(s: seq<X>, i: nat): seq<X>
    requires i < |s|
  {
    s[..i] + s[i + 1..]
  }

  lemma RemovedAt<X>(s: seq<X>, i: nat)
    requires i < |s|
    ensures |RemoveAt(s, i)| == |s| - 1
    ensures forall j :: 0 <= j < |s| - 1 ==> RemoveAt(s, i)[j] == s[if j < i then j else j + 1]
  {
  }

  lemma RemovedStay(hs: seq<Handle>, i: nat, h: Handle)
    requires i < |hs| && h in hs && h != hs[i]
    ensures h in RemoveAt(hs, i)
  {
    var j :| 0 <= j < |hs| && hs[j] == h;
    RemovedAt(hs, i);
    assert RemoveAt(hs, i)[if j < i then j else j - 1] == h;
  }

  lemma RemovedOk(p: string, es: seq<ExtensionKind>, hs: seq<Handle>, table: Table, i: nat)
    requires PointOk(p, es, hs, table) && i < |hs|
    ensures PointOk(p, RemoveAt(es, i), RemoveAt(hs, i), table - {hs[i]})
  {
    RemovedAt(hs, i);
    RemovedAt(es, i);
    forall h | h in table && h != hs[i] && table[h].point == p ensures h in RemoveAt(hs, i) {
      RemovedStay(hs, i, h);
    }
  }

  // The two tables agree on every point but `p`.
  ghost predicate AgreeOutside(table: Table, after: Table, p: string) {
    forall h {:trigger h in table} {:trigger h in after} ::
      && ((h in table && table[h].point != p) <==> (h in after && after[h].point != p))
      && (h in table && table[h].point != p ==> after[h] == table[h])
  }

  lemma OtherPointOk(p: string, es: seq<ExtensionKind>, hs: seq<Handle>, table: Table, after: Table, changed: string)
    requires PointOk(p, es, hs, table) && AgreeOutside(table, after, changed) && p != changed
    ensures PointOk(p, es, hs, after)
  {
  }

  ghost predicate PointStands(points: map<string, bool>, extensions: map<string, seq<ExtensionKind>>,
                              handles: map<string, seq<Handle>>, table: Table, p: string) {
    && p in points && p in extensions && p in handles
    && PointOk(p, extensions[p], handles[p], table)
    && (points[p] || |handles[p]| <= 1)
  }

  // Every point's vectors are aligned and stand for its part of the table, and
  // a single-slot point holds at most one extension.
  ghost predicate Stands(points: map<string, bool>, extensions: map<string, seq<ExtensionKind>>,
                         handles: map<string, seq<Handle>>, table: Table) {
    && extensions.Keys == points.Keys && handles.Keys == points.Keys
    && (forall p {:trigger PointStands(points, extensions, handles, table, p)} ::
          p in points ==> PointStands(points, extensions, handles, table, p))
    && (forall h :: h in table ==> table[h].point in points)
  }

  lemma PointChanged(points: map<string, bool>, extensions: map<string, seq<ExtensionKind>>,
                     handles: map<string, seq<Handle>>, table: Table,
                     p: string, es: seq<ExtensionKind>, hs: seq<Handle>, after: Table)
    requires Stands(points, extensions, handles, table) && p in points && AgreeOutside(table, after, p)
    requires PointOk(p, es, hs, after) && (points[p] || |hs| <= 1)
    ensures Stands(points, extensions[p := es], handles[p := hs], after)
  {
    var es2, hs2 := extensions[p := es], handles[p := hs];
    forall q | q in points ensures PointStands(points, es2, hs2, after, q) {
      if q != p {
        assert PointStands(points, extensions, handles, table, q);
        OtherPointOk(q, extensions[q], handles[q], table, after, p);
      }
    }
    forall h | h in after ensures after[h].point in points {
      assert h in table || h !in table;
    }
  }

  lemma HandleIsSomewhere(points: map<string, bool>, extensions: map<string, seq<ExtensionKind>>,
                          handles: map<string, seq<Handle>>, table: Table, h: Handle)
    requires Stands(points, extensions, handles, table)
    ensures h in table ==> table[h].point in points && h in handles[table[h].point]
  {
    assert h in table ==> PointStands(points, extensions, handles, table, table[h].point);
  }

  // A multiple point gains an entry; a single-slot point has it replaced.
  lemma Added(points: map<string, bool>, extensions: map<string, seq<ExtensionKind>>,
              handles: map<string, seq<Handle>>, table: Table, h: Handle, e: ExtensionKind)
    requires Stands(points, extensions, handles, table) && e.point in points && forall g :: g in table ==> g < h
    ensures var p := e.point;
      if points[p] then
        Stands(points, extensions[p := extensions[p] + [e]], handles[p := handles[p] + [h]], table[h := e])
      else
        Stands(points, extensions[p := [e]], handles[p := [h]], Without(table, p)[h := e])
  {
    var p := e.point;
    assert PointStands(points, extensions, handles, table, p);
    if points[p] {
      PushedOk(p, extensions[p], handles[p], table, h, e);
      PointChanged(points, extensions, handles, table, p, extensions[p] + [e], handles[p] + [h], table[h := e]);
    } else {
      PointChanged(points, extensions, handles, table, p, [e], [h], Without(table, p)[h := e]);
    }
  }

  class ExtensionManager {
    const points: map<string, bool>
    var extensions: map<string, seq<ExtensionKind>>
    var handles: map<string, seq<Handle>>
    var nextHandle: Handle
    // The registrations in force.
    ghost var table: Table

    ghost predicate Valid()
      reads this
    {
      && Stands(points, extensions, handles, table)
      && (forall h :: h in table ==> h < nextHandle)
    }

    constructor ()
      ensures Valid() && table == map[] && nextHandle == 0 && points == BUILT_IN_POINTS
      ensures points.Keys ==
              {"discoverer", "middleware", "acl", "span_exporter", "module_validator", "approval_handler"}
      ensures forall p :: p in points ==> (points[p] <==> p == "middleware" || p == "span_exporter")
    {
      points := BUILT_IN_POINTS;
      extensions := map p | p in BUILT_IN_POINTS :: [];
      handles := map p | p in BUILT_IN_POINTS :: [];
      nextHandle := 0;
      table := map[];
    }

    method Register(pointName: string, extension: ExtensionKind) returns (r: Result<Handle, ExtensionError>)
      requires Valid()
      modifies this
      ensures Valid()
      ensures pointName !in points ==> r == Err(UnknownPoint)
      ensures pointName in points && extension.point != pointName ==> r == Err(WrongKind)
      ensures pointName in points && extension.point == pointName ==>
        && r == Ok(old(nextHandle)) && nextHandle == old(nextHandle) + 1
        && table ==
           (if points[pointName] then old(table) else Without(old(table), pointName))[old(nextHandle) := extension]
      ensures r.Err? ==> table == old(table) && nextHandle == old(nextHandle)
    {
      if pointName !in points {
        return Err(UnknownPoint);
      }
      if extension.point != pointName {
        return Err(WrongKind);
      }
      assert PointStands(points, extensions, handles, table, pointName);
      var handle := nextHandle;
      nextHandle := nextHandle + 1;
      var es, hs := [extension], [handle];
      if points[pointName] {
        es, hs := extensions[pointName] + es, handles[pointName] + hs;
      }
      Added(points, extensions, handles, table, handle, extension);
      extensions := extensions[pointName := es];
      handles := handles[pointName := hs];
      table := (if points[pointName] then table else Without(table, pointName))[handle := extension];
      r := Ok(handle);
    }

    // Removes the extension that is this object, the earliest if it is there
    // more than once.
    method Unregister(pointName: string, extension: ExtensionKind) returns (r: Result<bool, ExtensionError>)
      requires Valid()
      modifies this
      ensures Valid() && nextHandle == old(nextHandle)
      ensures r.Err? <==> pointName !in points
      ensures r.Err? ==> r.error == UnknownPoint
      ensures r.Ok? ==> (r.value <==> exists h :: IsAt(old(table), h, pointName, extension.at))
      ensures r == Ok(true) ==>
        exists h :: IsAt(old(table), h, pointName, extension.at) && table == old(table) - {h}
          && forall g :: IsAt(old(table), g, pointName, extension.at) ==> h <= g
      ensures r != Ok(true) ==> table == old(table)
    {
      if pointName !in extensions {
        return Err(UnknownPoint);
      }
      assert PointStands(points, extensions, handles, table, pointName);
      var es, hs := extensions[pointName], handles[pointName];
      var index := 0;
      while index < |es| && es[index].at != extension.at
        invariant index <= |es| && forall j :: 0 <= j < index ==> es[j].at != extension.at
      {
        index := index + 1;
      }
      FoundIsEarliest(pointName, es, hs, table, extension.at, index);
      if index == |es| {
        return Ok(false);
      }
      RemoveEntry(pointName, index);
      r := Ok(true);
    }

    method RemoveEntry(pointName: string, index: nat)
      requires Valid() && PointStands(points, extensions, handles, table, pointName) && index < |handles[pointName]|
      modifies this
      ensures Valid() && nextHandle == old(nextHandle) && table == old(table) - {old(handles[pointName][index])}
    {
      var es, hs := RemoveAt(extensions[pointName], index), RemoveAt(handles[pointName], index);
      ghost var after := table - {handles[pointName][index]};
      RemovedOk(pointName, extensions[pointName], handles[pointName], table, index);
      PointChanged(points, extensions, handles, table, pointName, es, hs, after);
      extensions := extensions[pointName := es];
      handles := handles[pointName := hs];
      table := after;
    }

    // Removes exactly the registration the handle was issued for.
    method UnregisterHandle(handle: Handle) returns (found: bool)
      requires Valid()
      modifies this
      ensures Valid() && nextHandle == old(nextHandle)
      ensures found <==> handle in old(table)
      ensures table == old(table) - {handle}
    {
      var rest := handles.Keys;
      while rest != {}
        invariant rest <= points.Keys && Valid() && table == old(table) && nextHandle == old(nextHandle)
        invariant forall p :: p in points && p !in rest ==> handle !in handles[p]
        decreases |rest|
      {
        var p :| p in rest;
        rest := rest - {p};
        assert PointStands(points, extensions, handles, table, p);
        var hs := handles[p];
        var index := 0;
        while index < |hs| && hs[index] != handle
          invariant index <= |hs| && forall j :: 0 <= j < index ==> hs[j] != handle
        {
          index := index + 1;
        }
        if index < |hs| {
          RemoveEntry(p, index);
          return true;
        }
      }
      HandleIsSomewhere(points, extensions, handles, table, handle);
      found := false;
    }

    method GetAll(pointName: string) returns (r: Result<seq<ExtensionKind>, ExtensionError>)
      requires Valid()
      ensures pointName !in points ==> r == Err(UnknownPoint)
      ensures pointName in points ==> r.Ok? && exists hs :: PointOk(pointName, r.value, hs, table)
      ensures r.Ok? ==> forall e :: e in r.value <==> exists h :: h in table && table[h] == e && e.point == pointName
      ensures pointName in points && !points[pointName] ==> |r.value| <= 1
    {
      if pointName !in extensions {
        return Err(UnknownPoint);
      }
      assert PointStands(points, extensions, handles, table, pointName);
      r := Ok(extensions[pointName]);
      PointHolds(pointName, extensions[pointName], handles[pointName], table);
    }

    method Clear(pointName: string) returns (r: Result<(), ExtensionError>)
      requires Valid()
      modifies this
      ensures Valid() && nextHandle == old(nextHandle)
      ensures r == if pointName in points then Ok(()) else Err(UnknownPoint)
      ensures table == Without(old(table), pointName)
    {
      if pointName !in extensions {
        assert Without(table, pointName) == table;
        return Err(UnknownPoint);
      }
      PointChanged(points, extensions, handles, table, pointName, [], [], Without(table, pointName));
      extensions := extensions[pointName := []];
      handles := handles[pointName := []];
      table := Without(table, pointName);
      r := Ok(());
    }

    method ClearAll()
      requires Valid()
      modifies this
      ensures Valid() && nextHandle == old(nextHandle) && table == map[]
    {
      extensions := map p | p in extensions :: [];
      handles := map p | p in handles :: [];
      table := map[];
    }
  }

  lemma PointHolds(p: string, es: seq<ExtensionKind>, hs: seq<Handle>, table: Table)
    requires PointOk(p, es, hs, table)
    ensures forall e :: e in es <==> exists h :: h in table && table[h] == e && e.point == p
  {
    forall e | e in es ensures exists h :: h in table && table[h] == e && e.point == p {
      var i :| 0 <= i < |es| && es[i] == e;
      assert hs[i] in table && table[hs[i]] == e;
    }
    forall h | h in table && table[h].point == p ensures table[h] in es {
      var i :| 0 <= i < |hs| && hs[i] == h;
      assert table[hs[i]] == es[i];
    }
  }

  ghost function Without(table: Table, p: string): Table {
    map h | h in table && table[h].point != p :: table[h]
  }

  ghost predicate IsAt(table: Table, h: Handle, p: string, at: Address) {
    h in table && table[h].point == p && table[h].at == at
  }

  lemma PushedOk(p: string, es: seq<ExtensionKind>, hs: seq<Handle>, table: Table, h: Handle, e: ExtensionKind)
    requires PointOk(p, es, hs, table) && e.point == p && forall g :: g in table ==> g < h
    ensures PointOk(p, es + [e], hs + [h], table[h := e])
  {
  }

  lemma FoundIsEarliest(p: string, es: seq<ExtensionKind>, hs: seq<Handle>, table: Table, at: Address, index: nat)
    requires PointOk(p, es, hs, table) && index <= |es|
    requires (forall j :: 0 <= j < index ==> es[j].at != at) && (index < |es| ==> es[index].at == at)
    ensures index < |es| ==> IsAt(table, hs[index], p, at)
    ensures forall g :: IsAt(table, g, p, at) ==> index < |es| && hs[index] <= g
  {
    forall g | IsAt(table, g, p, at) ensures index < |es| && hs[index] <= g {
      var j :| 0 <= j < |hs| && hs[j] == g;
    }
  }
}
