# aws-view classifier, modelled in Dafny

aws-view is a small CGI dashboard. It fetches every EC2 instance visible under
one credential set, groups the instances by their `env` tag, and renders one
HTML table per group. This project models the part of `view.py` that shapes
the data:

- `get_all_envs` collects the distinct `env` tag values.
- `get_interesting_data` builds the groups. It starts with an empty group per
  `env` value plus the group `"unknown"`. It then appends a ten-field summary
  of each instance to its group and re-sorts that group by `role` with
  `_compare_by_key` after every append.
- `print_keys` decides the order in which groups are rendered. Every group
  except `"unknown"` comes in the map's iteration order, and `"unknown"` comes
  last. When no key section is selected, the page is empty.

Modules, in dependency order:

| file | module | contents |
|---|---|---|
| `optional.dfy` | `Optional` | `Option`, for a tag that may be absent |
| `string_order.dfy` | `StringOrder` | Python's `<` on strings: lexicographic by character, a proper prefix first |
| `instances.dfy` | `Instances` | raw records, summaries, tag lookup, the role comparator |
| `role_sort.dfy` | `RoleSort` | the stable sort by role, as insertion sort, plus a proof that every stable sort gives the same result |
| `classifier.dfy` | `Classifier` | `GetAllEnvs`, `GetInterestingData`, and the partition properties |
| `scenarios.dfy` | `Scenarios` | two-instance examples of the grouping rules |
| `page.dfy` | `Page` | the rendering order of `print_keys`; each table is reduced to its group name and hosts |

The quirks of the code are kept:

- An `env` tag equal to `""` is a group of its own.
- An `env` tag equal to `"unknown"` merges into the default group and adds no
  second group.
- A record with no `tags` attribute behaves like one with an empty tag map.
- Equal roles keep their input order, because Python's `list.sort` is stable.
- The selected key section is an `Option`. The source compares it with
  `False` (view.py:107), so only a missing selection renders nothing. Any
  string, `""` included, is a selection (`Some`).

Two points about the code that the model keeps as written:

- The code re-sorts a group after every append. The model does the same.
  It proves that the result equals one stable sort of the group
  (`Classifier.GroupGrow`, `RoleSort.ResortAfterAppend`).
- Only the `env` and `role` tags have defaults. Any other missing attribute
  raises `KeyError` (view.py:68-77). The model's `Instance` always carries
  those attributes. The two IP addresses may hold `None`, so they are
  `Option<string>`.

## Model

| member | source | states |
|---|---|---|
| `Instances.Tag` | view.py:58-65 | a tag is present exactly when the record has a tag map holding the key, and then it is that map's value; no tag map and a missing key both give absent |
| `Instances.EnvOfDefault` | view.py:58-61 | `EnvOf`, an instance's group, is its `env` tag when the tag map holds one, and `"unknown"` otherwise |
| `Instances.RoleOfDefault` | view.py:62-65 | `RoleOf`, an instance's role, is its `role` tag when the tag map holds one, and `"unknown"` otherwise |
| `Instances.Summarize` | view.py:62-78 | the summary's role is the `role` tag when present and `"unknown"` otherwise; the nine other fields copy `id`, `root_device_type`, `state`, `key_name`, `private_ip_address`, `ip_address`, `placement`, `launch_time`, `instance_type` unchanged |
| `Instances.CompareByRole` | view.py:42-48 | the comparator returns only 1, -1 or 0; it returns 0 exactly when the roles are equal, a negative value exactly when the first role is less in string order, and a positive value exactly when it is greater |
| `Instances.CompareAntisymmetric` | view.py:42-48 | swapping the arguments negates the comparison, as a sort comparator must |
| `Instances.CompareAtMostTransitive` | view.py:42-48 | "compares at most" is transitive, so the comparator is a valid total preorder for sorting |
| `Instances.MissingTagsLikeEmptyTags` | view.py:58-65 | a record without a tags attribute gets the same group (`"unknown"`) and the same summary as one with an empty tag map |
| `StringOrder.LessIrreflexive` | view.py:43-45 | no role is less than itself |
| `StringOrder.LessTransitive` | view.py:43-45 | string order on roles is transitive |
| `StringOrder.LessTotal` | view.py:43-45 | of two different roles, one is less than the other |
| `RoleSort.InsertSorted` | view.py:80 | inserting a summary into a role-sorted group keeps it sorted |
| `RoleSort.InsertStable` | view.py:80 | inserting keeps each role's summaries in their previous order and puts the new summary after those with its role |
| `RoleSort.StableSort` | view.py:80 | the sorted group is non-decreasing by role and is a permutation of its input |
| `RoleSort.StableSortKeepsRoleOrder` | view.py:80 | sorting is stable: for every role, the summaries with that role appear in input order |
| `RoleSort.SortedByRoleUnique` | view.py:80 | two role-sorted sequences that list each role's summaries in the same order are equal, so a stable sort's result is determined by its input |
| `RoleSort.SortSortedIsIdentity` | view.py:80 | sorting an already sorted group leaves it unchanged |
| `RoleSort.ResortAfterAppend` | view.py:67-80 | appending a summary to a sorted group and sorting again gives the same result as sorting all the summaries once |
| `Classifier.EnvSetMember` | view.py:31-38 | a name is an env value exactly when some instance carries it as its `env` tag |
| `Classifier.GetAllEnvs` | view.py:31-38 | the result has no duplicates and holds exactly the `env` tag values of the instances; untagged instances contribute nothing, and the order is unspecified |
| `Classifier.EmptyGroups` | view.py:50-54 | the initial map has exactly one key per env value plus `"unknown"`, and every group is empty |
| `Classifier.AllSummaries` | view.py:67-78 | the summaries of all instances, one per instance and in input order |
| `Classifier.Place` | view.py:67-80 | one loop step keeps the key set and every other group, and leaves the instance's group sorted by role, with the new summary added to its members; that the re-sort is stable is `Classifier.PlaceKeepsRoleOrder` |
| `Classifier.PlaceKeepsRoleOrder` | view.py:80 | the re-sort of one loop step is stable: in the instance's group, each role's summaries keep their previous order, and the new summary comes after those with its role |
| `Classifier.GroupGrow` | view.py:57-80 | after instance `i` is processed, its group is the previous group with the new summary appended and re-sorted, and every other group is unchanged |
| `Classifier.PlaceExtendsGroups` | view.py:57-80 | one step of the classification loop adds no key and removes none, and leaves every group equal to the sorted group of the instances seen so far |
| `Classifier.GetInterestingData` | view.py:40-82 | `"unknown"` is always a key, even for no instances; the keys are exactly the env values plus `"unknown"`; each group holds the summaries of the instances with that env, stably sorted by role |
| `Classifier.AnyStableSortIsGroup` | view.py:80 | any arrangement of a group's summaries that is sorted by role and keeps equal roles in input order is that group |
| `Classifier.GroupsPartition` | view.py:57-78 | pooling the groups over a duplicate-free list of keys that covers every instance's group gives each instance's summary exactly once |
| `Classifier.GroupMembers` | view.py:57-78 | a summary is in group `e` exactly when some instance in group `e` has that summary |
| `Classifier.GroupNonEmptyIffTagged` | view.py:50-67 | a group other than `"unknown"` is non-empty exactly when its name is an env value, so no group created up front stays empty |
| `Scenarios.SortTwo` | view.py:80 | two summaries are swapped exactly when the first has the greater role |
| `Scenarios.TaggedAndUntagged` | view.py:57-78 | an instance tagged `env=prod, role=web` and an untagged instance give groups `prod` and `"unknown"` with one summary each; the roles are `web` and `"unknown"` |
| `Scenarios.GroupSortedByRole` | view.py:42-80 | two `prod` instances with roles `b` then `a` come out as `a`, `b` |
| `Scenarios.EmptyEnvIsOwnGroup` | view.py:31-61 | an `env` tag equal to `""` forms the group `""`, and `"unknown"` stays empty |
| `Scenarios.UnknownEnvAddsNoGroup` | view.py:31-54 | an `env` tag equal to `"unknown"` adds no env value besides `"unknown"` |
| `Scenarios.UnknownEnvMergesWithUntagged` | view.py:57-80 | an instance tagged `env=unknown` shares the `"unknown"` group with an untagged one, and equal roles keep input order |
| `Page.WithoutUnknown` | view.py:113-115 | the loop's groups are exactly the listed names other than `"unknown"`, without duplicates when the listing has none |
| `Page.WithoutUnknownConcat` | view.py:113-115 | skipping `"unknown"` commutes with concatenation, so the names that stay keep their relative order |
| `Page.WithoutUnknownSplit` | view.py:113-115 | wherever `"unknown"` sits in a listing of the keys, the loop renders the other names in exactly the listing's order |
| `Page.PageOrder` | view.py:113-116 | the rendered names end with `"unknown"`, name it nowhere else, and cover exactly the listed names plus `"unknown"`, each once |
| `Page.HostsArePooledGroups` | view.py:113-116 | the hosts shown by a page of final groups are the pooled groups it names |
| `Page.PageShowsEachInstanceOnce` | view.py:112-116 | a page that names each group once, covers every instance's group and shows the final groups shows every fetched instance's summary exactly once |
| `Page.RenderGroups` | view.py:113-116 | the tables follow the page order, and each one shows its group's contents from the map |
| `Page.PrintKeys` | view.py:105-118 | with no section selected the page is empty; otherwise the tables follow the page order, each shows its final group, and together they show every fetched instance exactly once |

## Left out

- `get_instances` (view.py:17-29) is not modelled, because it makes network calls to the cloud provider. The fetched instances are a parameter of `Page.PrintKeys`.
- `print_env` (view.py:84-95) is not modelled, because it renders a Jinja template. A table is reduced to its group name and its hosts.
- `get_getconfig` and the credential lookup `config.get(keys, ...)` (view.py:97-103, 111) are not modelled, because they read a file. A missing section or key would raise, and that error path is not modelled.
- `print_sections`, the HTML `HEADER`/`FOOTER` and the CGI entry point are not modelled, because they are presentation and request handling.
- Python's dict iteration order is not modelled. `Page.PrintKeys` and `Page.RenderGroups` take the order as a parameter. `Page.PrintKeys` requires a duplicate-free listing of all the map's keys. `Page.RenderGroups` accepts any listing of keys of the map, with repeats or gaps.
- The order of `list(set(...))` in `get_all_envs` is not modelled. `Classifier.GetAllEnvs` picks elements in an arbitrary order and promises nothing about it.
- A `KeyError` for a record that lacks `id`, `state` or another non-tag attribute is not modelled, because every `Instance` carries those fields.
- Python 2's mixed `str`/`unicode` comparison is not modelled. Roles are compared character by character by code point.
- The sort algorithm Python uses (Timsort) is not modelled. The model uses insertion sort, and `RoleSort.SortedByRoleUnique` shows that every stable sort by role gives the same sequence.
