/** Small classifications that show the grouping rules on two-instance inputs. */
module Scenarios {
  import opened Optional
  import opened Instances
  import opened RoleSort
  import opened Classifier

  /** The group `e` of two instances, before sorting. */
  lemma SummariesOfTwo(a: Instance, b: Instance, e: string)
    ensures Summaries([a, b], e)
         == (if EnvOf(a) == e then [Summarize(a)] else []) + (if EnvOf(b) == e then [Summarize(b)] else [])
  {
    SummariesAppend([], a, e);
    SummariesAppend([a], b, e);
    assert [a] == [] + [a] && [a, b] == [a] + [b];
  }

  /** The `env` tag values of two instances. */
  lemma EnvSetOfTwo(a: Instance, b: Instance)
    ensures EnvSet([a, b])
         == (if Tag(a, "env").Some? then {Tag(a, "env").value} else {})
          + (if Tag(b, "env").Some? then {Tag(b, "env").value} else {})
  {
    var lhs := EnvSet([a, b]);
    var rhs := (if Tag(a, "env").Some? then {Tag(a, "env").value} else {})
             + (if Tag(b, "env").Some? then {Tag(b, "env").value} else {});
    forall e
      ensures e in lhs <==> e in rhs
    {
      EnvSetMember([a, b], e);
      if exists i :: 0 <= i < 2 && Tag([a, b][i], "env") == Some(e) {
        var i :| 0 <= i < 2 && Tag([a, b][i], "env") == Some(e);
        assert i == 0 || i == 1;
      }
      assert [a, b][0] == a && [a, b][1] == b;
    }
  }

  /** Sorting two summaries swaps them exactly when the first has the greater role. */
  lemma SortTwo(x: Summary, y: Summary)
    ensures StableSort([x, y]) == if CompareByRole(x, y) <= 0 then [x, y] else [y, x]
  {
    if CompareByRole(x, y) <= 0 {
      assert Sorted([x, y]);
      SortSortedIsIdentity([x, y]);
    } else {
      StableSortSnoc([x], y);
      StableSortSnoc([], x);
      assert [] + [x] == [x] && [x] + [y] == [x, y];
      assert [x][..0] == [];
      assert Insert([], y) == [y];
    }
  }

  /** A tagged instance goes to its `env` group with its role; an untagged one to `"unknown"`. */
  lemma TaggedAndUntagged(web: Instance, bare: Instance)
    requires web.tags == Some(map["env" := "prod", "role" := "web"])
    requires bare.tags == Some(map[])
    ensures EnvSet([web, bare]) == {"prod"}
    ensures GroupOf([web, bare], "prod") == [Summarize(web)]
    ensures GroupOf([web, bare], Unknown) == [Summarize(bare)]
    ensures Summarize(web).role == "web" && Summarize(bare).role == Unknown
  {
    assert EnvOf(web) == "prod" && EnvOf(bare) == Unknown;
    EnvSetOfTwo(web, bare);
    SummariesOfTwo(web, bare, "prod");
    SummariesOfTwo(web, bare, Unknown);
    StableSortSnoc([], Summarize(web));
    StableSortSnoc([], Summarize(bare));
  }

  /** Within a group, summaries come out ordered by role, whatever the input order. */
  lemma GroupSortedByRole(b: Instance, a: Instance)
    requires b.tags == Some(map["env" := "prod", "role" := "b"])
    requires a.tags == Some(map["env" := "prod", "role" := "a"])
    ensures GroupOf([b, a], "prod") == [Summarize(a), Summarize(b)]
  {
    var sb, sa := Summarize(b), Summarize(a);
    assert Summaries([b, a], "prod") == [sb, sa] by {
      assert EnvOf(b) == "prod" && EnvOf(a) == "prod";
      SummariesOfTwo(b, a, "prod");
    }
    assert CompareByRole(sb, sa) == 1 by {
      assert sb.role == "b" && sa.role == "a";
      assert StringOrder.Less("a", "b");
    }
    SortTwo(sb, sa);
  }

  /** An empty `env` tag is a group of its own, apart from `"unknown"`. */
  lemma EmptyEnvIsOwnGroup(blank: Instance)
    requires blank.tags == Some(map["env" := ""])
    ensures EnvSet([blank]) == {""}
    ensures GroupOf([blank], "") == [Summarize(blank)]
    ensures GroupOf([blank], Unknown) == []
  {
    forall e
      ensures e in EnvSet([blank]) <==> e == ""
    {
      EnvSetMember([blank], e);
    }
    SummariesAppend([], blank, "");
    SummariesAppend([], blank, Unknown);
    assert [blank] == [] + [blank];
    StableSortSnoc([], Summarize(blank));
    assert [] + [Summarize(blank)] == [Summarize(blank)];
  }

  /** An `env` tag equal to `"unknown"` adds no group besides `"unknown"`. */
  lemma UnknownEnvAddsNoGroup(named: Instance, bare: Instance)
    requires named.tags == Some(map["env" := "unknown"])
    requires bare.tags == None
    ensures EnvSet([named, bare]) == {Unknown}
  {
    assert Tag(named, "env") == Some(Unknown) && Tag(bare, "env") == None;
    EnvSetOfTwo(named, bare);
  }

  /**
   An instance tagged `env` = `"unknown"` joins the untagged ones in the
   `"unknown"` group, and equal roles keep their input order.
   */
  lemma UnknownEnvMergesWithUntagged(named: Instance, bare: Instance)
    requires named.tags == Some(map["env" := "unknown"])
    requires bare.tags == None
    ensures GroupOf([named, bare], Unknown) == [Summarize(named), Summarize(bare)]
  {
    var sn, sb := Summarize(named), Summarize(bare);
    assert Summaries([named, bare], Unknown) == [sn, sb] by {
      assert EnvOf(named) == Unknown && EnvOf(bare) == Unknown;
      SummariesOfTwo(named, bare, Unknown);
    }
    assert CompareByRole(sn, sb) == 0 by {
      assert sn.role == Unknown && sb.role == Unknown;
    }
    SortTwo(sn, sb);
  }
}
