/**
 The classifier: partitions the fetched instances into groups keyed by their
 `env` tag, each group a role-sorted list of summaries, with a group
 `"unknown"` that always exists and collects the untagged instances.
 */
module Classifier {
  import opened Optional
  import opened Instances
  import opened RoleSort

  predicate NoDuplicates(s: seq<string>) {
    forall i, j :: 0 <= i < j < |s| ==> s[i] != s[j]
  }

  /** The distinct `env` tag values carried by the instances. */
  function EnvSet(insts: seq<Instance>): set<string> {
    set i | 0 <= i < |insts| && Tag(insts[i], "env").Some? :: Tag(insts[i], "env").value
  }

  lemma EnvSetMember(insts: seq<Instance>, e: string)
    ensures e in EnvSet(insts) <==> exists i :: 0 <= i < |insts| && Tag(insts[i], "env") == Some(e)
  {
  }

  /** The summaries of the instances in group `e`, in input order. */
  function Summaries(insts: seq<Instance>, e: string): seq<Summary> {
    if |insts| == 0 then []
    else
      var last := insts[|insts| - 1];
      Summaries(insts[..|insts| - 1], e) + (if EnvOf(last) == e then [Summarize(last)] else [])
  }

  /** The summaries of all instances, in input order. */
  function AllSummaries(insts: seq<Instance>): (r: seq<Summary>)
    ensures |r| == |insts| && forall i :: 0 <= i < |insts| ==> r[i] == Summarize(insts[i])
  {
    if |insts| == 0 then [] else AllSummaries(insts[..|insts| - 1]) + [Summarize(insts[|insts| - 1])]
  }

  /** What group `e` holds once classification is done: its summaries, stably sorted by role. */
  function GroupOf(insts: seq<Instance>, e: string): seq<Summary> {
    StableSort(Summaries(insts, e))
  }

  /**
   Whatever stable sort the group is sorted with, the result is `GroupOf`:
   any arrangement of the group's summaries that is sorted by role and keeps
   equal roles in input order is that group.
   */
  lemma AnyStableSortIsGroup(insts: seq<Instance>, e: string, t: seq<Summary>)
    requires Sorted(t)
    requires forall k :: WithRole(t, k) == WithRole(Summaries(insts, e), k)
    ensures t == GroupOf(insts, e)
  {
    forall k
      ensures WithRole(GroupOf(insts, e), k) == WithRole(Summaries(insts, e), k)
    {
      StableSortKeepsRoleOrder(Summaries(insts, e), k);
    }
    SortedByRoleUnique(t, GroupOf(insts, e));
  }

  lemma SummariesAppend(insts: seq<Instance>, x: Instance, e: string)
    ensures Summaries(insts + [x], e) == Summaries(insts, e) + (if EnvOf(x) == e then [Summarize(x)] else [])
  {
    assert (insts + [x])[..|insts|] == insts;
  }

  /**
   The distinct `env` tag values, each exactly once, in no particular order;
   instances without the tag contribute nothing.
   */
  method GetAllEnvs(insts: seq<Instance>) returns (envs: seq<string>)
    ensures NoDuplicates(envs)
    ensures forall e :: e in envs <==> e in EnvSet(insts)
  {
    var tagged: seq<string> := [];
    for i := 0 to |insts|
      invariant forall e :: e in tagged <==> exists j :: 0 <= j < i && Tag(insts[j], "env") == Some(e)
    {
      match Tag(insts[i], "env")
      case Some(e) =>
        tagged := tagged + [e];
      case None =>
    }
    // Dropping duplicates through a set leaves the order unspecified.
    var distinct := set e | e in tagged;
    envs := [];
    while distinct != {}
      invariant NoDuplicates(envs)
      invariant forall e :: e in envs || e in distinct <==> e in tagged
      invariant forall e :: e in envs ==> e !in distinct
      decreases |distinct|
    {
      var e :| e in distinct;
      envs := envs + [e];
      distinct := distinct - {e};
    }
    assert insts[..|insts|] == insts;
    forall e
      ensures e in envs <==> e in EnvSet(insts)
    {
      EnvSetMember(insts, e);
    }
  }

  /** One step of the classification: append the summary to its group and sort the group again. */
  function Place(groups: map<string, seq<Summary>>, inst: Instance): (r: map<string, seq<Summary>>)
    requires EnvOf(inst) in groups
    ensures r.Keys == groups.Keys
    ensures forall e :: e in groups && e != EnvOf(inst) ==> r[e] == groups[e]
    ensures Sorted(r[EnvOf(inst)])
    ensures multiset(r[EnvOf(inst)]) == multiset(groups[EnvOf(inst)]) + multiset{Summarize(inst)}
  {
    var env := EnvOf(inst);
    groups[env := StableSort(groups[env] + [Summarize(inst)])]
  }

  /**
   The re-sort of one loop step is stable: in the instance's group, each role's
   summaries keep their order and the new summary follows those with its role.
   */
  lemma {:induction false} PlaceKeepsRoleOrder(groups: map<string, seq<Summary>>, inst: Instance, k: string)
    requires EnvOf(inst) in groups
    ensures WithRole(Place(groups, inst)[EnvOf(inst)], k)
         == WithRole(groups[EnvOf(inst)], k) + (if RoleOf(inst) == k then [Summarize(inst)] else [])
  {
    StableSortKeepsRoleOrder(groups[EnvOf(inst)] + [Summarize(inst)], k);
    WithRoleAppend(groups[EnvOf(inst)], Summarize(inst), k);
  }

  /** The summaries of group `e` among the first `i + 1` instances, from those among the first `i`. */
  lemma SummariesGrow(insts: seq<Instance>, i: nat, e: string)
    requires i < |insts|
    ensures Summaries(insts[..i + 1], e)
         == Summaries(insts[..i], e) + (if EnvOf(insts[i]) == e then [Summarize(insts[i])] else [])
  {
    assert insts[..i + 1][..i] == insts[..i];
    assert insts[..i + 1][i] == insts[i];
  }

  /** Re-sorting a sorted group after appending one summary gives the group of one more instance. */
  lemma GroupGrow(insts: seq<Instance>, i: nat, e: string)
    requires i < |insts|
    ensures GroupOf(insts[..i + 1], e)
         == if EnvOf(insts[i]) == e then StableSort(GroupOf(insts[..i], e) + [Summarize(insts[i])])
            else GroupOf(insts[..i], e)
  {
    SummariesGrow(insts, i, e);
    if EnvOf(insts[i]) == e {
      var before := Summaries(insts[..i], e);
      ResortAfterAppend(before, Summarize(insts[i]));
      assert Summaries(insts[..i + 1], e) == before + [Summarize(insts[i])];
      assert GroupOf(insts[..i], e) == StableSort(before);
    } else {
      var before := Summaries(insts[..i], e);
      assert before + [] == before;
    }
  }

  /**
   Placing instance `i` into the groups of the instances before it yields
   the groups of the first `i + 1` instances, without adding or removing a group.
   */
  lemma {:induction false} PlaceExtendsGroups(groups: map<string, seq<Summary>>, insts: seq<Instance>, i: nat)
    requires i < |insts| && EnvOf(insts[i]) in groups
    requires forall e :: e in groups ==> groups[e] == GroupOf(insts[..i], e)
    ensures Place(groups, insts[i]).Keys == groups.Keys
    ensures forall e :: e in Place(groups, insts[i]) ==> Place(groups, insts[i])[e] == GroupOf(insts[..i + 1], e)
  {
    var after := Place(groups, insts[i]);
    forall e | e in after
      ensures after[e] == GroupOf(insts[..i + 1], e)
    {
      GroupGrow(insts, i, e);
    }
  }

  /**
   The initial groups: an empty one per name in `envs` and an empty one named
   `"unknown"`, whether or not `envs` holds that name already.
   */
  method EmptyGroups(envs: seq<string>) returns (groups: map<string, seq<Summary>>)
    ensures forall e :: e in groups <==> e in envs || e == Unknown
    ensures forall e :: e in groups ==> groups[e] == []
  {
    groups := map[];
    for i := 0 to |envs|
      invariant forall e :: e in groups <==> e in envs[..i]
      invariant forall e :: e in groups ==> groups[e] == []
    {
      groups := groups[envs[i] := []];
    }
    assert envs[..|envs|] == envs;
    groups := groups[Unknown := []];
  }

  /**
   Classifies the instances: one empty group per `env` tag value and one
   named `"unknown"`, then each instance's summary is appended to its group,
   which is sorted again after every append.
   */
  method GetInterestingData(insts: seq<Instance>) returns (ret: map<string, seq<Summary>>)
    ensures Unknown in ret
    ensures ret.Keys == EnvSet(insts) + {Unknown}
    ensures forall e :: e in ret ==> ret[e] == GroupOf(insts, e)
    ensures forall e :: e in ret ==> Sorted(ret[e])
  {
    var envs := GetAllEnvs(insts);
    ret := EmptyGroups(envs);
    for i := 0 to |insts|
      invariant ret.Keys == EnvSet(insts) + {Unknown}
      invariant forall e :: e in ret ==> ret[e] == GroupOf(insts[..i], e)
    {
      var inst := insts[i];
      assert EnvOf(inst) in ret by {
        if Tag(inst, "env").Some? {
          assert EnvOf(inst) in EnvSet(insts);
        }
      }
      PlaceExtendsGroups(ret, insts, i);
      ret := Place(ret, inst);
    }
    assert insts[..|insts|] == insts;
  }

  /** The summaries of the groups named by `keys`, pooled. */
  function Bag(keys: seq<string>, insts: seq<Instance>): multiset<Summary> {
    if |keys| == 0 then multiset{}
    else Bag(keys[..|keys| - 1], insts) + multiset(Summaries(insts, keys[|keys| - 1]))
  }

  /** The last instance adds its summary to the pool exactly when its group is among `keys`. */
  lemma {:induction false} BagDropLast(keys: seq<string>, insts: seq<Instance>)
    requires NoDuplicates(keys) && |insts| > 0
    ensures Bag(keys, insts)
         == Bag(keys, insts[..|insts| - 1])
          + (if EnvOf(insts[|insts| - 1]) in keys then multiset{Summarize(insts[|insts| - 1])} else multiset{})
    decreases |keys|
  {
    if |keys| > 0 {
      var p := keys[..|keys| - 1];
      assert NoDuplicates(p);
      BagDropLast(p, insts);
      OneOccurrenceSplits(keys, EnvOf(insts[|insts| - 1]), Summarize(insts[|insts| - 1]));
    }
  }

  /** In a duplicate-free list, a name occurs in the prefix or as the last entry, not both. */
  lemma OneOccurrenceSplits(keys: seq<string>, env: string, sx: Summary)
    requires |keys| > 0 && NoDuplicates(keys)
    ensures (if env in keys then multiset{sx} else multiset{})
         == (if env in keys[..|keys| - 1] then multiset{sx} else multiset{})
          + (if env == keys[|keys| - 1] then multiset{sx} else multiset{})
  {
    assert keys == keys[..|keys| - 1] + [keys[|keys| - 1]];
  }

  lemma {:induction false} BagOfNothing(keys: seq<string>)
    ensures Bag(keys, []) == multiset{}
    decreases |keys|
  {
    if |keys| > 0 {
      BagOfNothing(keys[..|keys| - 1]);
    }
  }

  /**
   Every instance lands in exactly one group: pooling the groups named by a
   duplicate-free list of keys that covers every instance's group gives back
   the summaries of all the instances, each as often as it occurs.
   */
  lemma {:induction false} GroupsPartition(keys: seq<string>, insts: seq<Instance>)
    requires NoDuplicates(keys)
    requires forall i :: 0 <= i < |insts| ==> EnvOf(insts[i]) in keys
    ensures Bag(keys, insts) == multiset(AllSummaries(insts))
    decreases |insts|
  {
    if |insts| == 0 {
      BagOfNothing(keys);
    } else {
      var p, x := insts[..|insts| - 1], insts[|insts| - 1];
      GroupsPartition(keys, p);
      BagDropLast(keys, insts);
    }
  }

  lemma {:induction false} SummariesMembers(insts: seq<Instance>, e: string, s: Summary)
    ensures s in Summaries(insts, e) <==> exists i :: 0 <= i < |insts| && EnvOf(insts[i]) == e && Summarize(insts[i]) == s
    decreases |insts|
  {
    if |insts| > 0 {
      var p, x := insts[..|insts| - 1], insts[|insts| - 1];
      SummariesMembers(p, e, s);
      if exists i :: 0 <= i < |insts| && EnvOf(insts[i]) == e && Summarize(insts[i]) == s {
        var i :| 0 <= i < |insts| && EnvOf(insts[i]) == e && Summarize(insts[i]) == s;
        if i < |p| {
          assert p[i] == insts[i];
        }
      }
    }
  }

  /**
   A summary is in group `e` exactly when some instance whose group is `e`
   has that summary.
   */
  lemma GroupMembers(insts: seq<Instance>, e: string, s: Summary)
    ensures s in GroupOf(insts, e) <==> exists i :: 0 <= i < |insts| && EnvOf(insts[i]) == e && Summarize(insts[i]) == s
  {
    SummariesMembers(insts, e, s);
    assert s in GroupOf(insts, e) <==> s in multiset(GroupOf(insts, e));
    assert s in Summaries(insts, e) <==> s in multiset(Summaries(insts, e));
  }

  /**
   A group other than `"unknown"` has members exactly when its name is an
   `env` tag value, so every group created up front ends up non-empty.
   */
  lemma GroupNonEmptyIffTagged(insts: seq<Instance>, e: string)
    requires e != Unknown
    ensures |GroupOf(insts, e)| > 0 <==> e in EnvSet(insts)
  {
    EnvSetMember(insts, e);
    if e in EnvSet(insts) {
      var i :| 0 <= i < |insts| && Tag(insts[i], "env") == Some(e);
      GroupMembers(insts, e, Summarize(insts[i]));
    } else if |GroupOf(insts, e)| > 0 {
      GroupMembers(insts, e, GroupOf(insts, e)[0]);
    }
  }
}
