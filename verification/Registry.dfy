/** internal/broker/upstream/manager.go with the shared registry of internal/broker/gateway_server.go:
    one manager per upstream server, all publishing into one map of names, from which entries are
    deleted by name with no check of who put them there. */
module Registry {

  import opened Text

  /** A tool or a prompt as its server lists it; def stands for everything but the name. */
  datatype Item = Item(name: string, def: string)

  /** An item as the gateway serves it: prefixed name, and the owning server's id in its metadata. */
  datatype Published = Published(name: string, owner: string, def: string)

  /** The gateway's registry of one kind of item. */
  type Shelf = map<string, Published>

  /** A manager's view of one kind: the listed items, what it published, and its two indexes. */
  datatype Catalog = Catalog(items: seq<Item>, served: seq<Published>, byName: map<string, Item>, byServed: map<string, Item>)

  const NOTHING := Catalog([], [], map[], map[])

  datatype Owner = Owner(id: string, prefix: string)

  function Publish(o: Owner, i: Item): Published {
    Published(o.prefix + i.name, o.id, i.def)
  }

  /** Go map built in list order: the last item of a name stays. */
  function ByName(items: seq<Item>): (m: map<string, Item>)
    ensures forall n :: n in m ==> m[n].name == n && m[n] in items
    ensures forall i :: i in items ==> i.name in m
  {
    if items == [] then map[]
    else ByName(items[..|items| - 1])[items[|items| - 1].name := items[|items| - 1]]
  }

  lemma ByNameHas(items: seq<Item>, n: string)
    ensures n in ByName(items) <==> exists i :: i in items && i.name == n
  {
    assert n in ByName(items) ==> ByName(items)[n] in items;
  }

  function ByServed(o: Owner, items: seq<Item>): (m: map<string, Item>)
    ensures forall n :: n in m <==> exists i :: i in items && n == o.prefix + i.name
    ensures forall n :: n in m ==> m[n] in items && n == o.prefix + m[n].name
  {
    if items == [] then map[]
    else
      var last := items[|items| - 1];
      assert forall i :: i in items <==> i == last || i in items[..|items| - 1];
      ByServed(o, items[..|items| - 1])[o.prefix + last.name := last]
  }

  // ---- diff ----

  datatype Diff = Diff(added: seq<Published>, removed: seq<string>)

  /** added publishes each newly listed name once, removed names each name no longer listed; the
      order is up to map iteration. */
  ghost predicate IsDiff(o: Owner, old_: seq<Item>, new_: seq<Item>, d: Diff) {
    && (forall a :: a in d.added <==> exists n :: n in ByName(new_) && n !in ByName(old_) && a == Publish(o, ByName(new_)[n]))
    && (forall i, j :: 0 <= i < j < |d.added| ==> d.added[i].name != d.added[j].name)
    && (forall r :: r in d.removed <==> exists n :: n in ByName(old_) && n !in ByName(new_) && r == o.prefix + n)
  }

  /** diffTools and diffPrompts. */
  method DiffItems(o: Owner, oldItems: seq<Item>, newItems: seq<Item>) returns (added: seq<Published>, removed: seq<string>)
    ensures IsDiff(o, oldItems, newItems, Diff(added, removed))
  {
    var oldMap := IndexItems(oldItems);
    var newMap := IndexItems(newItems);
    added, removed := [], [];
    var keys := newMap.Keys;
    while keys != {}
      invariant keys <= newMap.Keys
      invariant forall a :: a in added <==> exists n :: n in newMap && n !in keys && n !in oldMap && a == Publish(o, newMap[n])
      invariant forall i, j :: 0 <= i < j < |added| ==> added[i].name != added[j].name
      decreases keys
    {
      var n :| n in keys;
      keys := keys - {n};
      if n !in oldMap {
        PublishNames(o, added, newMap, keys, n);
        added := added + [Publish(o, newMap[n])];
      }
    }
    keys := oldMap.Keys;
    while keys != {}
      invariant keys <= oldMap.Keys
      invariant forall r :: r in removed <==> exists n :: n in oldMap && n !in keys && n !in newMap && r == o.prefix + n
      decreases keys
    {
      var n :| n in keys;
      keys := keys - {n};
      if n !in newMap {
        removed := removed + [o.prefix + oldMap[n].name];
      }
    }
  }

  lemma PublishNames(o: Owner, added: seq<Published>, m: map<string, Item>, left: set<string>, n: string)
    requires n in m && forall k :: k in m ==> m[k].name == k
    requires forall a :: a in added ==> exists k :: k in m && k !in left && k != n && a == Publish(o, m[k])
    ensures forall i :: 0 <= i < |added| ==> added[i].name != o.prefix + n
  {
    forall i | 0 <= i < |added|
      ensures added[i].name != o.prefix + n
    {
      assert added[i] in added;
      var k :| k in m && k !in left && k != n && added[i] == Publish(o, m[k]);
      PrefixInjective(o.prefix, k, n);
    }
  }

  lemma PrefixInjective(p: string, a: string, b: string)
    ensures p + a == p + b <==> a == b
  {
    assert (p + a)[|p|..] == a && (p + b)[|p|..] == b;
  }

  method IndexItems(items: seq<Item>) returns (m: map<string, Item>)
    ensures m == ByName(items)
  {
    m := map[];
    for i := 0 to |items|
      invariant m == ByName(items[..i])
    {
      assert items[..i + 1][..i] == items[..i];
      m := m[items[i].name := items[i]];
    }
    assert items[..|items|] == items;
  }

  // ---- conflicts ----

  /** A name to be added is already held by another owner. */
  predicate Conflicts(shelf: Shelf, id: string, added: seq<Published>) {
    exists i :: 0 <= i < |added| && added[i].name in shelf && shelf[added[i].name].owner != id
  }

  method FindConflicts(shelf: Shelf, id: string, added: seq<Published>) returns (conflict: bool)
    ensures conflict == Conflicts(shelf, id, added)
  {
    conflict := false;
    for i := 0 to |added|
      invariant conflict <==> exists j :: 0 <= j < i && added[j].name in shelf && shelf[added[j].name].owner != id
    {
      var names := shelf.Keys;
      while names != {}
        invariant names <= shelf.Keys
        invariant conflict <==> (exists j :: 0 <= j < i && added[j].name in shelf && shelf[added[j].name].owner != id)
                                || (added[i].name in shelf && added[i].name !in names && shelf[added[i].name].owner != id)
        decreases names
      {
        var n :| n in names;
        names := names - {n};
        if n == added[i].name && shelf[n].owner != id {
          conflict := true;
        }
      }
    }
  }

  // ---- publishing and withdrawing ----

  function Put(shelf: Shelf, added: seq<Published>): (r: Shelf)
    ensures forall n :: n in r <==> n in shelf || exists i :: 0 <= i < |added| && added[i].name == n
  {
    if added == [] then shelf
    else Put(shelf, added[..|added| - 1])[added[|added| - 1].name := added[|added| - 1]]
  }

  function Take(shelf: Shelf, names: seq<string>): Shelf {
    map n | n in shelf && n !in names :: shelf[n]
  }

  function Kept(served: seq<Published>, removed: seq<string>): (r: seq<Published>)
    ensures forall p :: p in r <==> p in served && p.name !in removed
  {
    if served == [] then []
    else
      var last := served[|served| - 1];
      assert forall p :: p in served <==> p == last || p in served[..|served| - 1];
      Kept(served[..|served| - 1], removed) + if last.name in removed then [] else [last]
  }

  function Names(served: seq<Published>): (r: seq<string>)
    ensures |r| == |served| && forall i :: 0 <= i < |r| ==> r[i] == served[i].name
  {
    seq(|served|, i requires 0 <= i < |served| => served[i].name)
  }

  /** A new listing takes effect: indexes rebuilt, the diff applied to what is served. */
  function Relisted(o: Owner, c: Catalog, items: seq<Item>, d: Diff): Catalog {
    Catalog(items, Kept(c.served, d.removed) + d.added, ByName(items), ByServed(o, items))
  }

  /** The index of served names, rebuilt entry by entry. */
  method IndexServed(o: Owner, items: seq<Item>) returns (m: map<string, Item>)
    ensures m == ByServed(o, items)
  {
    m := map[];
    for i := 0 to |items|
      invariant m == ByServed(o, items[..i])
    {
      assert items[..i + 1][..i] == items[..i];
      m := m[o.prefix + items[i].name := items[i]];
    }
    assert items[..|items|] == items;
  }

  method ServedNames(served: seq<Published>) returns (names: seq<string>)
    ensures names == Names(served)
  {
    names := [];
    for i := 0 to |served|
      invariant names == Names(served)[..i]
    {
      names := names + [served[i].name];
    }
  }

  /** slices.DeleteFunc over the names to remove. */
  method DeleteServed(served: seq<Published>, removed: seq<string>) returns (r: seq<Published>)
    ensures r == Kept(served, removed)
  {
    r := [];
    for i := 0 to |served|
      invariant r == Kept(served[..i], removed)
    {
      assert served[..i + 1][..i] == served[..i];
      if served[i].name !in removed {
        r := r + [served[i]];
      }
    }
    assert served[..|served|] == served;
  }

  // ---- what one owner's catalog and the shelf have to agree on ----

  /** The names on the shelf with this owner are exactly those it serves, exactly prefix plus name
      over its listed items, and exactly the keys of its index of served names. */
  ghost predicate InStep(o: Owner, c: Catalog, shelf: Shelf) {
    && (forall p :: p in c.served ==> p.owner == o.id && p.name in shelf && shelf[p.name] == p)
    && (forall n :: n in shelf && shelf[n].owner == o.id ==> shelf[n] in c.served)
    && (forall n :: n in c.byServed <==> n in shelf && shelf[n].owner == o.id)
    && c.byServed == ByServed(o, c.items)
    && c.byName == ByName(c.items)
  }

  ghost predicate Labelled(shelf: Shelf) {
    forall n :: n in shelf ==> shelf[n].name == n
  }

  /** Nothing of any other owner was overwritten, deleted or added. */
  ghost predicate OthersKept(id: string, before: Shelf, after: Shelf) {
    && (forall n :: n in before && before[n].owner != id ==> n in after && after[n] == before[n])
    && (forall n :: n in after && after[n].owner != id ==> n in before && before[n] == after[n])
  }

  lemma OtherOwnerStaysInStep(o: Owner, id: string, c: Catalog, before: Shelf, after: Shelf)
    requires o.id != id && InStep(o, c, before) && OthersKept(id, before, after)
    ensures InStep(o, c, after)
  {
  }

  lemma PutAt(shelf: Shelf, added: seq<Published>, i: nat)
    requires i < |added| && forall j, k :: 0 <= j < k < |added| ==> added[j].name != added[k].name
    ensures added[i].name in Put(shelf, added) && Put(shelf, added)[added[i].name] == added[i]
    decreases |added|
  {
    if i < |added| - 1 {
      PutAt(shelf, added[..|added| - 1], i);
    }
  }

  lemma {:induction false} PutElsewhere(shelf: Shelf, added: seq<Published>, n: string)
    requires forall i :: 0 <= i < |added| ==> added[i].name != n
    ensures (n in Put(shelf, added) <==> n in shelf) && (n in shelf ==> Put(shelf, added)[n] == shelf[n])
    decreases |added|
  {
    if added != [] {
      PutElsewhere(shelf, added[..|added| - 1], n);
    }
  }

  // ---- the two ways a manager changes the shelf ----

  /** A name being added is not listed, so not served, so not on the shelf: the conflict check has
      ruled out that another owner has it. */
  lemma AddedIsFresh(o: Owner, c: Catalog, shelf: Shelf, items: seq<Item>, d: Diff)
    requires InStep(o, c, shelf) && IsDiff(o, c.items, items, d) && !Conflicts(shelf, o.id, d.added)
    ensures forall i :: 0 <= i < |d.added| ==> d.added[i].owner == o.id && d.added[i].name !in shelf && d.added[i].name !in d.removed
  {
    forall i | 0 <= i < |d.added|
      ensures d.added[i].owner == o.id && d.added[i].name !in shelf && d.added[i].name !in d.removed
    {
      var a := d.added[i];
      assert a in d.added;
      var n :| n in ByName(items) && n !in ByName(c.items) && a == Publish(o, ByName(items)[n]);
      assert a.name == o.prefix + n;
      forall x | x in c.items
        ensures o.prefix + x.name != a.name
      {
        PrefixInjective(o.prefix, x.name, n);
      }
      assert a.name !in c.byServed;
      forall r | r in d.removed
        ensures r != a.name
      {
        var m :| m in ByName(c.items) && m !in ByName(items) && r == o.prefix + m;
        PrefixInjective(o.prefix, m, n);
      }
    }
  }

  /** A name being removed is one this owner serves. */
  lemma RemovedIsOwn(o: Owner, c: Catalog, shelf: Shelf, items: seq<Item>, d: Diff)
    requires InStep(o, c, shelf) && IsDiff(o, c.items, items, d)
    ensures forall r :: r in d.removed ==> r in shelf && shelf[r].owner == o.id
  {
    forall r | r in d.removed
      ensures r in shelf && shelf[r].owner == o.id
    {
      var n :| n in ByName(c.items) && n !in ByName(items) && r == o.prefix + n;
      assert ByName(c.items)[n] in c.items;
      assert r in c.byServed;
    }
  }

  /** The served names after a relisting: what is listed now. */
  lemma ServedAfter(o: Owner, c: Catalog, shelf: Shelf, items: seq<Item>, d: Diff, n: string)
    requires InStep(o, c, shelf) && IsDiff(o, c.items, items, d)
    ensures n in ByServed(o, items) <==> (n in c.byServed && n !in d.removed) || exists i :: 0 <= i < |d.added| && d.added[i].name == n
  {
    if n in ByServed(o, items) {
      var x := ByServed(o, items)[n];
      assert x.name in ByName(items) && n == o.prefix + x.name;
      if x.name in ByName(c.items) {
        var y := ByName(c.items)[x.name];
        assert y in c.items && n == o.prefix + y.name;
        if n in d.removed {
          var m :| m in ByName(c.items) && m !in ByName(items) && n == o.prefix + m;
          PrefixInjective(o.prefix, m, x.name);
          assert false;
        }
      } else {
        var a := Publish(o, ByName(items)[x.name]);
        assert a in d.added;
        assert a.name == n;
      }
    } else {
      forall i | 0 <= i < |d.added|
        ensures d.added[i].name != n
      {
        assert d.added[i] in d.added;
        var m :| m in ByName(items) && m !in ByName(c.items) && d.added[i] == Publish(o, ByName(items)[m]);
        assert ByName(items)[m] in items;
      }
      if n in c.byServed {
        var y := c.byServed[n];
        assert y in c.items && y.name in ByName(c.items) && n == o.prefix + y.name;
        ByNameHas(items, y.name);
        assert n in d.removed;
      }
    }
  }

  /** A listing without a conflict: the owner stays in step, and every entry of every other owner,
      the broker's own tools included, is untouched. */
  lemma RelistKeepsStep(o: Owner, c: Catalog, shelf: Shelf, items: seq<Item>, d: Diff)
    requires Labelled(shelf) && InStep(o, c, shelf) && IsDiff(o, c.items, items, d) && !Conflicts(shelf, o.id, d.added)
    ensures var after := Put(Take(shelf, d.removed), d.added);
            Labelled(after) && InStep(o, Relisted(o, c, items, d), after) && OthersKept(o.id, shelf, after)
  {
    RelistInStep(o, c, shelf, items, d, Put(Take(shelf, d.removed), d.added));
    AddedIsFresh(o, c, shelf, items, d);
    RemovedIsOwn(o, c, shelf, items, d);
    RelistKeepsOthers(o.id, shelf, d);
  }

  lemma RelistKeepsOthers(id: string, shelf: Shelf, d: Diff)
    requires Labelled(shelf)
    requires forall i, j :: 0 <= i < j < |d.added| ==> d.added[i].name != d.added[j].name
    requires forall i :: 0 <= i < |d.added| ==> d.added[i].owner == id && d.added[i].name !in shelf
    requires forall r :: r in d.removed ==> r in shelf && shelf[r].owner == id
    ensures var after := Put(Take(shelf, d.removed), d.added); Labelled(after) && OthersKept(id, shelf, after)
  {
    var mid := Take(shelf, d.removed);
    var after := Put(mid, d.added);
    forall n
      ensures n in after ==> after[n].name == n
      ensures n in shelf && shelf[n].owner != id ==> n in after && after[n] == shelf[n]
      ensures n in after && after[n].owner != id ==> n in shelf && shelf[n] == after[n]
    {
      PutHas(id, mid, d.added, n);
    }
  }

  /** After publishing, a name carries a new entry of this owner or what it carried before. */
  predicate PutEffect(id: string, mid: Shelf, added: seq<Published>, n: string) {
    var after := Put(mid, added);
    || (n in after && n !in mid && after[n].owner == id && after[n].name == n)
    || ((n in after <==> n in mid) && (n in mid ==> after[n] == mid[n]))
  }

  lemma PutHas(id: string, mid: Shelf, added: seq<Published>, n: string)
    requires forall i, j :: 0 <= i < j < |added| ==> added[i].name != added[j].name
    requires forall i :: 0 <= i < |added| ==> added[i].owner == id && added[i].name !in mid
    ensures PutEffect(id, mid, added, n)
  {
    if i :| 0 <= i < |added| && added[i].name == n {
      PutAt(mid, added, i);
    } else {
      PutElsewhere(mid, added, n);
    }
  }

  lemma RelistInStep(o: Owner, c: Catalog, shelf: Shelf, items: seq<Item>, d: Diff, after: Shelf)
    requires Labelled(shelf) && InStep(o, c, shelf) && IsDiff(o, c.items, items, d) && !Conflicts(shelf, o.id, d.added)
    requires after == Put(Take(shelf, d.removed), d.added)
    ensures InStep(o, Relisted(o, c, items, d), after)
  {
    var mid := Take(shelf, d.removed);
    AddedIsFresh(o, c, shelf, items, d);
    forall p | p in Kept(c.served, d.removed) + d.added
      ensures p.owner == o.id && p.name in after && after[p.name] == p
    {
      if p in d.added {
        var i :| 0 <= i < |d.added| && d.added[i] == p;
        PutAt(mid, d.added, i);
      } else {
        assert p in c.served && p.name in shelf && p.name in mid;
        PutElsewhere(mid, d.added, p.name);
      }
    }
    forall n | n in after && after[n].owner == o.id
      ensures after[n] in Kept(c.served, d.removed) + d.added
    {
      if i :| 0 <= i < |d.added| && d.added[i].name == n {
        PutAt(mid, d.added, i);
      } else {
        PutElsewhere(mid, d.added, n);
        assert shelf[n] in c.served && shelf[n].name == n;
      }
    }
    forall n
      ensures n in ByServed(o, items) <==> n in after && after[n].owner == o.id
    {
      ServedAfter(o, c, shelf, items, d, n);
      if i :| 0 <= i < |d.added| && d.added[i].name == n {
        PutAt(mid, d.added, i);
      } else {
        PutElsewhere(mid, d.added, n);
      }
    }
  }

  /** removeAllTools and removeAllPrompts: the owner's entries go, by name, and no others. */
  lemma RemoveAllKeepsStep(o: Owner, c: Catalog, shelf: Shelf)
    requires Labelled(shelf) && InStep(o, c, shelf)
    ensures var after := Take(shelf, Names(c.served));
            Labelled(after) && InStep(o, NOTHING, after) && OthersKept(o.id, shelf, after)
  {
    var after := Take(shelf, Names(c.served));
    forall n | n in shelf
      ensures n in Names(c.served) <==> shelf[n].owner == o.id
    {
      if n in Names(c.served) {
        var i :| 0 <= i < |c.served| && c.served[i].name == n;
        assert c.served[i] in c.served;
      }
      if shelf[n].owner == o.id {
        var i :| 0 <= i < |c.served| && c.served[i] == shelf[n];
        assert Names(c.served)[i] == n;
      }
    }
  }

  /** Conflict check and publication are two steps: if two managers both check against the same shelf
      before either publishes, neither sees a conflict, and the first one's entries all survive the
      second one's publication exactly when they share no name. */
  lemma UnserialisedPublicationIff(shelf: Shelf, id: string, id': string, first: seq<Published>, second: seq<Published>)
    requires id != id' && (forall i, j :: 0 <= i < j < |first| ==> first[i].name != first[j].name)
    requires (forall i, j :: 0 <= i < j < |second| ==> second[i].name != second[j].name)
    requires (forall i :: 0 <= i < |first| ==> first[i].owner == id && first[i].name !in shelf)
    requires (forall i :: 0 <= i < |second| ==> second[i].owner == id' && second[i].name !in shelf)
    ensures !Conflicts(shelf, id, first) && !Conflicts(shelf, id', second)
    ensures (forall i :: 0 <= i < |first| ==> var after := Put(Put(shelf, first), second); first[i].name in after && after[first[i].name] == first[i])
       <==> (forall i, j :: 0 <= i < |first| && 0 <= j < |second| ==> first[i].name != second[j].name)
  {
    var mid := Put(shelf, first);
    forall i | 0 <= i < |first|
      ensures (first[i].name in Put(mid, second) && Put(mid, second)[first[i].name] == first[i])
         <==> (forall j :: 0 <= j < |second| ==> first[i].name != second[j].name)
    {
      PutAt(shelf, first, i);
      if j :| 0 <= j < |second| && first[i].name == second[j].name {
        PutAt(mid, second, j);
      } else {
        PutElsewhere(mid, second, first[i].name);
      }
    }
  }

  /** Diffing by name only: an item listed again under the same name keeps the definition published
      when the name first appeared, so what is served is the current definition iff the name is new
      or its published definition happens to be the current one. */
  lemma ServedDefinitionIsCurrentIff(o: Owner, c: Catalog, shelf: Shelf, items: seq<Item>, d: Diff, n: string)
    requires Labelled(shelf) && InStep(o, c, shelf) && IsDiff(o, c.items, items, d) && !Conflicts(shelf, o.id, d.added)
    requires n in ByName(items)
    ensures var after := Put(Take(shelf, d.removed), d.added); var k := o.prefix + n;
            && k in after
            && (n in ByName(c.items) ==> k in shelf)
            && (after[k].def == ByName(items)[n].def <==> n !in ByName(c.items) || shelf[k].def == ByName(items)[n].def)
  {
    var k := o.prefix + n;
    var mid := Take(shelf, d.removed);
    AddedIsFresh(o, c, shelf, items, d);
    if n in ByName(c.items) {
      assert ByName(c.items)[n] in c.items;
      assert k in c.byServed;
      assert k !in d.removed by {
        if k in d.removed {
          var m :| m in ByName(c.items) && m !in ByName(items) && k == o.prefix + m;
          PrefixInjective(o.prefix, m, n);
        }
      }
      PutElsewhere(mid, d.added, k);
    } else {
      var a := Publish(o, ByName(items)[n]);
      assert a in d.added;
      var i :| 0 <= i < |d.added| && d.added[i] == a;
      PutAt(mid, d.added, i);
    }
  }
}
