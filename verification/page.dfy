/**
 The order in which the dashboard renders the groups: every group except
 `"unknown"` in the map's iteration order, then `"unknown"` last. Rendering
 a group is abstracted to the group's name and its summaries.
 */
module Page {
  import opened Optional
  import opened Instances
  import opened Classifier

  /** One rendered environment table. */
  datatype Table = Table(env: string, hosts: seq<Summary>)

  /**
   `order` with `"unknown"` taken out (that the other names keep their order is
   `WithoutUnknownConcat` and `WithoutUnknownSplit`).
   */
  function WithoutUnknown(order: seq<string>): (r: seq<string>)
    ensures forall e :: e in r <==> e in order && e != Unknown
    ensures NoDuplicates(order) ==> NoDuplicates(r)
    ensures |r| <= |order|
  {
    if |order| == 0 then []
    else
      var p := order[..|order| - 1];
      var e := order[|order| - 1];
      assert forall i :: 0 <= i < |p| ==> p[i] == order[i];
      assert NoDuplicates(order) ==> NoDuplicates(p) && e !in p;
      WithoutUnknown(p) + (if e != Unknown then [e] else [])
  }

  /** A listing that does not name `"unknown"` is rendered in exactly its own order. */
  lemma {:induction false} WithoutUnknownUnchanged(order: seq<string>)
    requires Unknown !in order
    ensures WithoutUnknown(order) == order
    decreases |order|
  {
    if |order| > 0 {
      var p, x := order[..|order| - 1], order[|order| - 1];
      WithoutUnknownUnchanged(p);
      assert order == p + [x];
    }
  }

  /**
   Taking `"unknown"` out commutes with concatenation, so the names that stay
   keep their relative order.
   */
  lemma {:induction false} WithoutUnknownConcat(a: seq<string>, b: seq<string>)
    ensures WithoutUnknown(a + b) == WithoutUnknown(a) + WithoutUnknown(b)
    decreases |b|
  {
    if |b| == 0 {
      assert a + b == a;
    } else {
      var q, x := b[..|b| - 1], b[|b| - 1];
      var tail := if x != Unknown then [x] else [];
      WithoutUnknownConcat(a, q);
      assert (a + b)[..|a + b| - 1] == a + q;
      assert WithoutUnknown(a + b) == WithoutUnknown(a + q) + tail;
      assert WithoutUnknown(b) == WithoutUnknown(q) + tail;
    }
  }

  /**
   Wherever `"unknown"` sits in a listing of the keys, the other names are
   rendered in the listing's order.
   */
  lemma {:induction false} WithoutUnknownSplit(p: seq<string>, q: seq<string>)
    requires Unknown !in p && Unknown !in q
    ensures WithoutUnknown(p + [Unknown] + q) == p + q
  {
    var pu := p + [Unknown];
    WithoutUnknownConcat(pu, q);
    assert WithoutUnknown(pu) == WithoutUnknown(p) by {
      assert pu[..|pu| - 1] == p && pu[|pu| - 1] == Unknown;
      var w := WithoutUnknown(p);
      assert w + [] == w;
    }
    WithoutUnknownUnchanged(p);
    WithoutUnknownUnchanged(q);
  }

  /**
   The sequence of group names a page renders, given the map's iteration
   order: `"unknown"` exactly once and last, every other name once if the
   order lists it once, and nothing else.
   */
  function PageOrder(order: seq<string>): (r: seq<string>)
    ensures |r| > 0 && r[|r| - 1] == Unknown
    ensures Unknown !in r[..|r| - 1]
    ensures forall e :: e in r <==> e in order || e == Unknown
    ensures NoDuplicates(order) ==> NoDuplicates(r)
  {
    var rest := WithoutUnknown(order);
    assert (rest + [Unknown])[..|rest|] == rest;
    rest + [Unknown]
  }

  function EnvNames(page: seq<Table>): (r: seq<string>)
    ensures |r| == |page| && forall i :: 0 <= i < |page| ==> r[i] == page[i].env
  {
    if |page| == 0 then [] else EnvNames(page[..|page| - 1]) + [page[|page| - 1].env]
  }

  /** One more listed name extends the loop's groups by that name unless it is `"unknown"`. */
  lemma WithoutUnknownGrow(order: seq<string>, i: nat)
    requires i < |order|
    ensures WithoutUnknown(order[..i + 1])
         == WithoutUnknown(order[..i]) + (if order[i] != Unknown then [order[i]] else [])
  {
    assert order[..i + 1][..i] == order[..i];
  }

  lemma EnvNamesAppend(page: seq<Table>, t: Table)
    ensures EnvNames(page + [t]) == EnvNames(page) + [t.env]
  {
    assert (page + [t])[..|page|] == page;
  }

  /** Every summary a page shows, table after table. */
  function AllHosts(page: seq<Table>): seq<Summary> {
    if |page| == 0 then [] else AllHosts(page[..|page| - 1]) + page[|page| - 1].hosts
  }

  /** A page whose tables show the final groups pools exactly the groups it names. */
  lemma {:induction false} HostsArePooledGroups(page: seq<Table>, insts: seq<Instance>)
    requires forall i :: 0 <= i < |page| ==> page[i].hosts == GroupOf(insts, page[i].env)
    ensures multiset(AllHosts(page)) == Bag(EnvNames(page), insts)
    decreases |page|
  {
    if |page| > 0 {
      var p := page[..|page| - 1];
      HostsArePooledGroups(p, insts);
      var names := EnvNames(page);
      assert names[..|names| - 1] == EnvNames(p);
    }
  }

  /**
   A page that names each group once, including every instance's group, and
   shows each group's final contents, shows every fetched instance's summary
   exactly once.
   */
  lemma {:induction false} PageShowsEachInstanceOnce(page: seq<Table>, fetched: seq<Instance>)
    requires NoDuplicates(EnvNames(page))
    requires forall e :: e in EnvSet(fetched) || e == Unknown ==> e in EnvNames(page)
    requires forall i :: 0 <= i < |page| ==> page[i].hosts == GroupOf(fetched, page[i].env)
    ensures multiset(AllHosts(page)) == multiset(AllSummaries(fetched))
  {
    var names := EnvNames(page);
    forall i | 0 <= i < |fetched|
      ensures EnvOf(fetched[i]) in names
    {
      if Tag(fetched[i], "env").Some? {
        EnvSetMember(fetched, EnvOf(fetched[i]));
      }
    }
    HostsArePooledGroups(page, fetched);
    GroupsPartition(names, fetched);
  }

  /**
   The rendering loop: a table for each group other than `"unknown"` as
   `order` lists them, then the `"unknown"` table.
   */
  method RenderGroups(data: map<string, seq<Summary>>, order: seq<string>) returns (page: seq<Table>)
    requires Unknown in data
    requires forall e :: e in order ==> e in data
    ensures EnvNames(page) == PageOrder(order)
    ensures forall i :: 0 <= i < |page| ==> page[i].env in data && page[i].hosts == data[page[i].env]
  {
    page := [];
    for i := 0 to |order|
      invariant EnvNames(page) == WithoutUnknown(order[..i])
      invariant forall j :: 0 <= j < |page| ==> page[j].env in data && page[j].hosts == data[page[j].env]
    {
      WithoutUnknownGrow(order, i);
      if order[i] != Unknown {
        EnvNamesAppend(page, Table(order[i], data[order[i]]));
        page := page + [Table(order[i], data[order[i]])];
      } else {
        var names := EnvNames(page);
        assert names + [] == names;
      }
    }
    assert order[..|order|] == order;
    EnvNamesAppend(page, Table(Unknown, data[Unknown]));
    page := page + [Table(Unknown, data[Unknown])];
  }

  /**
   Renders the groups of the instances fetched for the selected key section,
   walking the groups in `order` (the map's iteration order, a duplicate-free
   listing of its keys). No selected section renders nothing.
   */
  method PrintKeys(selected: Option<string>, fetched: seq<Instance>, order: seq<string>) returns (page: seq<Table>)
    requires selected.Some? ==> NoDuplicates(order)
    requires selected.Some? ==> forall e :: e in order <==> e in EnvSet(fetched) || e == Unknown
    ensures selected.None? ==> page == []
    ensures selected.Some? ==> EnvNames(page) == PageOrder(order)
    ensures selected.Some? ==> forall i :: 0 <= i < |page| ==> page[i].hosts == GroupOf(fetched, page[i].env)
    ensures selected.Some? ==> multiset(AllHosts(page)) == multiset(AllSummaries(fetched))
    ensures selected.Some? ==> |AllHosts(page)| == |fetched|
  {
    if selected.None? {
      return [];
    }
    var data := GetInterestingData(fetched);
    page := RenderGroups(data, order);
    PageShowsEachInstanceOnce(page, fetched);
    assert |multiset(AllHosts(page))| == |AllHosts(page)|;
    assert |multiset(AllSummaries(fetched))| == |fetched|;
  }
}
