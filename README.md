# dropwizard-spring: the configuration property source

This project models `ConfigurationPropertySource`, the Spring property source
that dropwizard-spring builds from a Dropwizard configuration. Jackson first
turns the configuration object into a tree of maps, lists and scalars. The
source then walks that tree once, at construction, and stores one flat
`String → String` map of dotted property names:

- a map entry `k` below a path `P` is named `P.k`; it is named `Pk` when `k`
  starts with `[`, and `k` alone when `P` has no text (the top level, or a
  whitespace-only name);
- a string is stored as it is, `null` as `""`, and any other scalar as its
  `String.valueOf` text;
- a map stores nothing under its own name and walks its entries;
- a list stores the comma join of its elements under its own name, then walks
  each element `i` as the one entry `"[i]"` of a fresh map below the list's
  name.

Afterwards the map is only read, by `getProperty` and `getPropertyNames`.

The files are:

- `wrappers.dfy`: `Option`.
- `string_utils.dfy`: Spring's `hasText` over Java's `Character.isWhitespace`;
  `collectionToCommaDelimitedString` and a splitter that inverts it; and the
  decimal text of a list index, with its parser.
- `config_tree.dfy`: the tree (`Str`, `Null`, `Other`, `Map`, `List`), with
  maps as sequences of `Entry(key, value)` in iteration order. It also holds
  the `toString` text each element has inside a join, a height measure that
  ranks the walk's recursion, and a census of scalar leaves and list nodes.
- `flattening.dfy`: the specification.
  - The walk is described by its put log: the sequence of
    `sourceMap.put(key, value)` calls it makes, in order (`PutsForEntries`,
    `PutsForValue`, `PutsForElements`).
  - The property map is what the log leaves behind, the last put to a name
    winning (`ApplyPuts`). `LastPut` finds the value of the last put to a
    name by reading the log from its end.
  - `ChildPath` is the naming rule.
  - The lemmas prove the list, map and scalar cases, the naming rule's
    inverse, the count of puts, and what a lookup sees.
  - A position (`Step`s into map entries and list elements) picks out a node
    at any depth; `NodeAt` and `NameAt` give that node and the full property
    name the walk gives it.
- `property_source.dfy`: the class `ConfigurationPropertySource`.
  - It has a `sourceMap` field, and a recursive `AssignProperties` method
    with the source's two loops (over the entries, and over a list's
    elements with its `count`).
  - The method is proved to leave `sourceMap` equal to `ApplyPuts` of its
    old value and the put log.
  - `GetProperty` and `GetPropertyNames` read the field.
- `scenarios.dfy`: the repository's own test restated against the class (the
  verifier proves each lookup it asserts), and concrete projections for each
  edge case of the naming rule.

`AssignProperties` builds each entry's name by calling `ChildPath`, whose body
is the source's `if` chain (`hasText`, then `startsWith("[")`).

Some behaviour of the code worth noting:

- A `null` list element is `"null"` inside the join (`String.valueOf`), but
  `""` under its own indexed name (`NullElementProjection`).
- A parent path with only whitespace counts as no path, since `hasText` is
  false for it, so its children are named by their keys alone
  (`BlankParentDropped`).
- A map key that starts with `[` is appended without a dot at any depth, not
  only for list indices (`BracketKeyProjection`).
- Keys are not escaped, so two leaves can share a name; the later put wins
  (`DottedKeyCollision`). The per-entry guarantees (`ScalarEntryProjected`,
  `ListEntryProjected`) and the guarantees for nodes at any depth
  (`LeafProjected`, `ListNodeProjected`) therefore assume that no name is
  put twice (`DistinctKeys`).

## Model

| member | source | states |
|---|---|---|
| PropertySource.ConfigurationPropertySource.constructor | src/main/java/com/bazaarvoice/dropwizard/spring/ConfigurationPropertySource.java:19-23 | a new source holds exactly `Flatten` of the configuration, the projection of the whole tree |
| PropertySource.ConfigurationPropertySource.LoadData | src/main/java/com/bazaarvoice/dropwizard/spring/ConfigurationPropertySource.java:25-29 | walking the top-level map with no parent path applies the puts of every entry, named from the root, to the map |
| PropertySource.ConfigurationPropertySource.AssignProperties | src/main/java/com/bazaarvoice/dropwizard/spring/ConfigurationPropertySource.java:31-62 | after the walk of `input` at `path`, `sourceMap` is the old map updated by the walk's puts in order: entry loop, the scalar/map/list branches, the join put and the element loop with its recursive one-entry maps |
| PropertySource.ConfigurationPropertySource.GetProperty | src/main/java/com/bazaarvoice/dropwizard/spring/ConfigurationPropertySource.java:64-67 | a value exactly when the name is stored, and then the stored value; reads the map only |
| PropertySource.ConfigurationPropertySource.GetPropertyNames | src/main/java/com/bazaarvoice/dropwizard/spring/ConfigurationPropertySource.java:69-72 | the names returned are exactly the stored keys, each once; the map is not changed |
| PropertySource.GetPropertyIsLastPut | src/main/java/com/bazaarvoice/dropwizard/spring/ConfigurationPropertySource.java:64-67 | on a built source, a lookup returns the last value the walk put under the name, and nothing for a name never put |
| Flattening.ChildPathExtends | src/main/java/com/bazaarvoice/dropwizard/spring/ConfigurationPropertySource.java:33-40 | with no text in the parent path the name is the key; otherwise it strictly extends the parent path and has text itself |
| Flattening.ChildKeyRoundTrip | src/main/java/com/bazaarvoice/dropwizard/spring/ConfigurationPropertySource.java:33-40 | the key is recovered from the child's name and the parent path (dot or bracket form) |
| Flattening.ChildPathInjective | src/main/java/com/bazaarvoice/dropwizard/spring/ConfigurationPropertySource.java:33-40 | distinct keys of one map get distinct names |
| Flattening.IndexKeyInjective | src/main/java/com/bazaarvoice/dropwizard/spring/ConfigurationPropertySource.java:54-56 | the keys `"[" + count + "]"` differ for different counts |
| Flattening.ElementPathsDistinct | src/main/java/com/bazaarvoice/dropwizard/spring/ConfigurationPropertySource.java:54-56 | two elements of one list never get the same name |
| Flattening.LastPut | src/main/java/com/bazaarvoice/dropwizard/spring/ConfigurationPropertySource.java:43 | nothing when no put names the key; otherwise the value of a put to it after which no put names it |
| Flattening.ApplyPutsLastWins | src/main/java/com/bazaarvoice/dropwizard/spring/ConfigurationPropertySource.java:43 | after a sequence of `put`s a key is present iff it was before or was put, and holds the last value put (else its old value) |
| Flattening.ApplyPutsConcat | src/main/java/com/bazaarvoice/dropwizard/spring/ConfigurationPropertySource.java:32-61 | applying two runs of puts one after the other is applying their concatenation |
| Flattening.ApplyPutsKeepsUnput | src/main/java/com/bazaarvoice/dropwizard/spring/ConfigurationPropertySource.java:43 | puts that never name a key leave its presence and its value unchanged |
| Flattening.FlattenAround | src/main/java/com/bazaarvoice/dropwizard/spring/ConfigurationPropertySource.java:32 | the projection of three runs of entries applies their walks one after the other, in iteration order |
| Flattening.DistinctPutsStored | src/main/java/com/bazaarvoice/dropwizard/spring/ConfigurationPropertySource.java:43 | when no key is put twice, every put's value survives under its key |
| Flattening.FlattenKeys | src/main/java/com/bazaarvoice/dropwizard/spring/ConfigurationPropertySource.java:31-62 | the property names are exactly the names the walk puts |
| Flattening.FlattenLookup | src/main/java/com/bazaarvoice/dropwizard/spring/ConfigurationPropertySource.java:64-67 | a name is in the projection iff the walk puts it, with the last value put |
| Flattening.ApplyDistinctPutsSize | src/main/java/com/bazaarvoice/dropwizard/spring/ConfigurationPropertySource.java:43 | puts to fresh, distinct keys add one entry each |
| Flattening.FlattenSize | src/main/java/com/bazaarvoice/dropwizard/spring/ConfigurationPropertySource.java:42-59 | without name collisions there is one property per scalar leaf plus one per list |
| Flattening.ValuePutCount | src/main/java/com/bazaarvoice/dropwizard/spring/ConfigurationPropertySource.java:41-60 | a value makes one put per scalar leaf and one per list node, and none per map |
| Flattening.EntriesPutCount | src/main/java/com/bazaarvoice/dropwizard/spring/ConfigurationPropertySource.java:31-62 | a map's walk makes one put per scalar leaf and one per list node below it |
| Flattening.ElementsPutCount | src/main/java/com/bazaarvoice/dropwizard/spring/ConfigurationPropertySource.java:55-57 | a list's element walk makes one put per scalar leaf and one per list node in its elements |
| Flattening.EntriesPutsAppend | src/main/java/com/bazaarvoice/dropwizard/spring/ConfigurationPropertySource.java:32 | the entries are walked in iteration order: the log of a concatenation is the concatenation of the logs |
| Flattening.ElementPutsAppend | src/main/java/com/bazaarvoice/dropwizard/spring/ConfigurationPropertySource.java:54-57 | elements are walked in order with `count` running on: the log of a concatenation continues the indices |
| Flattening.SingletonEntryPuts | src/main/java/com/bazaarvoice/dropwizard/spring/ConfigurationPropertySource.java:56 | a one-entry map puts exactly what its value puts under the entry's name |
| Flattening.SingletonElementPuts | src/main/java/com/bazaarvoice/dropwizard/spring/ConfigurationPropertySource.java:56 | one element at index `i` puts what its value puts under `"<key>[i]"` |
| Flattening.ScalarPuts | src/main/java/com/bazaarvoice/dropwizard/spring/ConfigurationPropertySource.java:42-43 | a scalar makes the one put of its leaf text (string as is, null as "", else its text) under its name |
| Flattening.ApplyOnePut | src/main/java/com/bazaarvoice/dropwizard/spring/ConfigurationPropertySource.java:43 | one put sets that key to that value and leaves the rest of the map alone |
| Flattening.EntriesPutsStep | src/main/java/com/bazaarvoice/dropwizard/spring/ConfigurationPropertySource.java:32-61 | one iteration of the entry loop extends the applied prefix of the entries by one entry |
| Flattening.ElementPutsStep | src/main/java/com/bazaarvoice/dropwizard/spring/ConfigurationPropertySource.java:55-57 | one iteration of the element loop extends the applied prefix of the elements by one element |
| Flattening.ListPutsApplied | src/main/java/com/bazaarvoice/dropwizard/spring/ConfigurationPropertySource.java:53-57 | putting the join and then every element's puts is applying the list's log |
| Flattening.ListPutsJoinFirst | src/main/java/com/bazaarvoice/dropwizard/spring/ConfigurationPropertySource.java:49-57 | a list first puts its comma join under its own name, then its elements' puts; an empty list puts exactly `""` under its name |
| Flattening.ListPutsElement | src/main/java/com/bazaarvoice/dropwizard/spring/ConfigurationPropertySource.java:54-57 | after the join, element `i`'s puts (named below `"<key>[i]"`) form one run, after those of the elements before it |
| Flattening.ListPutsShift | src/main/java/com/bazaarvoice/dropwizard/spring/ConfigurationPropertySource.java:53-57 | a run of the element log sits one put later in the list's log |
| Flattening.EntryPutsSegment | src/main/java/com/bazaarvoice/dropwizard/spring/ConfigurationPropertySource.java:32-61 | entry `j`'s puts form one run of its map's log, after those of the entries before it |
| Flattening.ElementPutsSegment | src/main/java/com/bazaarvoice/dropwizard/spring/ConfigurationPropertySource.java:54-57 | element `i`'s puts form one run of the element log, after those of the elements before it |
| Flattening.StringListJoin | src/main/java/com/bazaarvoice/dropwizard/spring/ConfigurationPropertySource.java:53 | for comma-free strings, splitting the join at commas gives back the elements in order |
| Flattening.MapPutsBelowPath | src/main/java/com/bazaarvoice/dropwizard/spring/ConfigurationPropertySource.java:44-48 | a map at a path with text puts nothing under the path itself: every name it puts strictly extends the path |
| Flattening.ValuePutsExtend | src/main/java/com/bazaarvoice/dropwizard/spring/ConfigurationPropertySource.java:41-60 | every name a value puts below a path with text begins with that path |
| Flattening.ElementPutsBelowPath | src/main/java/com/bazaarvoice/dropwizard/spring/ConfigurationPropertySource.java:54-57 | every name a list's elements put strictly extends the list's name |
| Flattening.SegmentStored | src/main/java/com/bazaarvoice/dropwizard/spring/ConfigurationPropertySource.java:43 | when no key is put twice, every put of a run of the log survives |
| Flattening.ScalarEntryProjected | src/main/java/com/bazaarvoice/dropwizard/spring/ConfigurationPropertySource.java:41-43 | a scalar entry is stored under its name with its leaf text |
| Flattening.ListEntryProjected | src/main/java/com/bazaarvoice/dropwizard/spring/ConfigurationPropertySource.java:49-57 | a list entry is stored as its comma join under its name, and each scalar element `i` as its leaf text under `"<name>[i]"` |
| Flattening.ListElementStored | src/main/java/com/bazaarvoice/dropwizard/spring/ConfigurationPropertySource.java:54-57 | inside a collision-free log, a list's scalar element `i` is stored under `"<name>[i]"` |
| Flattening.SubtreePutsIncluded | src/main/java/com/bazaarvoice/dropwizard/spring/ConfigurationPropertySource.java:31-62 | every put the node at any position makes, under the full name the walk gives it (`NameAt`), is a put of the whole walk: the recursion at lines 48 and 56 stores a nested node's properties in the same map |
| Flattening.LeafProjected | src/main/java/com/bazaarvoice/dropwizard/spring/ConfigurationPropertySource.java:31-62 | when no name is put twice, every scalar leaf at any depth is stored in the final property map under its full name with its leaf text, whatever entries follow it |
| Flattening.ListNodeProjected | src/main/java/com/bazaarvoice/dropwizard/spring/ConfigurationPropertySource.java:49-53 | when no name is put twice, every list at any depth is stored in the final property map under its full name as the comma join of its elements |
| ConfigTree.ElementTexts | src/main/java/com/bazaarvoice/dropwizard/spring/ConfigurationPropertySource.java:53 | one text per element, in order, each the element's `String.valueOf` |
| ConfigTree.JoinTextOfScalar | src/main/java/com/bazaarvoice/dropwizard/spring/ConfigurationPropertySource.java:53-59 | a scalar renders the same in a join as it is stored, except `null` ("null" versus "") |
| ConfigTree.ElementEntryLower | src/main/java/com/bazaarvoice/dropwizard/spring/ConfigurationPropertySource.java:55-56 | the one-entry map made for a list element is lower than the map holding the list, so the recursion ends |
| StringUtils.HasTextExtends | src/main/java/com/bazaarvoice/dropwizard/spring/ConfigurationPropertySource.java:34 | a string with text keeps it when extended |
| StringUtils.BlankHasNoText | src/main/java/com/bazaarvoice/dropwizard/spring/ConfigurationPropertySource.java:34 | the empty string and whitespace-only strings have no text |
| StringUtils.DecimalString | src/main/java/com/bazaarvoice/dropwizard/spring/ConfigurationPropertySource.java:56 | the index text is non-empty, all digits, with no leading zero |
| StringUtils.DecimalRoundTrip | src/main/java/com/bazaarvoice/dropwizard/spring/ConfigurationPropertySource.java:56 | reading the index text back gives the index |
| StringUtils.DecimalStringInjective | src/main/java/com/bazaarvoice/dropwizard/spring/ConfigurationPropertySource.java:56 | different indices have different texts |
| StringUtils.SplitCommaDelimited | src/main/java/com/bazaarvoice/dropwizard/spring/ConfigurationPropertySource.java:53 | splitting a comma join of comma-free parts gives back the parts |
| Scenarios.SimpleTestLookups | src/test/java/com/bazaarvoice/dropwizard/spring/ConfigurationPropertySourceTest.java:13-29 | in any configuration holding the test's `test` entry, with entries before it and entries after it that put none of the five names, `test.first`, `test.second`, `test.second[0]`, `test.second[1]` and `test.third` hold the values the test asserts |
| Scenarios.SimpleTestProjection | src/test/java/com/bazaarvoice/dropwizard/spring/ConfigurationPropertySourceTest.java:13-20 | the `test` subtree alone projects to exactly those five properties |
| Scenarios.TestEntryPuts | src/test/java/com/bazaarvoice/dropwizard/spring/ConfigurationPropertySourceTest.java:14-20 | the `test` entry, walked from the root, puts the five properties in order |
| Scenarios.TestPutsOverwrite | src/test/java/com/bazaarvoice/dropwizard/spring/ConfigurationPropertySourceTest.java:25-29 | those five puts set the five names in any map and leave every other name alone |
| Scenarios.SimpleTestPuts | src/test/java/com/bazaarvoice/dropwizard/spring/ConfigurationPropertySourceTest.java:14-20 | the walk of the test's object puts its five properties in order |
| Scenarios.SecondListPuts | src/test/java/com/bazaarvoice/dropwizard/spring/ConfigurationPropertySourceTest.java:16 | the array `second` puts "test2,test3", then `[0]` and `[1]` |
| Scenarios.ScalarsProjection | src/main/java/com/bazaarvoice/dropwizard/spring/ConfigurationPropertySource.java:58-59 | a string, a number, a boolean and a null give "x", "4", "true" and "" |
| Scenarios.NestedMapProjection | src/main/java/com/bazaarvoice/dropwizard/spring/ConfigurationPropertySource.java:44-48 | a nested map stores only its leaf, under the dotted name |
| Scenarios.EmptyListProjection | src/main/java/com/bazaarvoice/dropwizard/spring/ConfigurationPropertySource.java:53-56 | an empty list stores `""` under its name and nothing else |
| Scenarios.NullElementProjection | src/main/java/com/bazaarvoice/dropwizard/spring/ConfigurationPropertySource.java:53-59 | a null element is "null" in the join and "" under its index |
| Scenarios.ListOfMapsProjection | src/main/java/com/bazaarvoice/dropwizard/spring/ConfigurationPropertySource.java:49-57 | a list of maps stores `toString` texts in the join and each map's entry under `items[i].k` |
| Scenarios.BracketKeyProjection | src/main/java/com/bazaarvoice/dropwizard/spring/ConfigurationPropertySource.java:35-36 | a key beginning with `[` is appended with no dot |
| Scenarios.DottedKeyCollision | src/main/java/com/bazaarvoice/dropwizard/spring/ConfigurationPropertySource.java:38-43 | a literal key "a.b" and the entry "b" of map "a" share one name, and the later put wins |
| Scenarios.BlankParentDropped | src/main/java/com/bazaarvoice/dropwizard/spring/ConfigurationPropertySource.java:34 | children of a whitespace-only name are named by their keys alone |

## Left out

- `SpringBundle.java` is not part of this model. It is wiring of Spring beans into Dropwizard's registries, with no projection logic.
- Jackson's `convertValue` (the tree is a parameter) is not modelled, and neither is its `JsonProcessingException`.
- The entries Jackson makes from Dropwizard's base `Configuration` (`server`, `logging`, `metrics`, ...) around the test's `test` entry are not spelled out. `SimpleTestLookups` lets any entries stand before the `test` entry, and after it any entries that put none of the five names.
- `Character.isWhitespace` is modelled as in JDK 9 and later (Unicode 6.3 onwards). Under JDK 8, U+180E also counts as whitespace, so a parent name made only of that character would be dropped there but kept in the model.
- The text of numbers and booleans: `Other(text)` carries the `String.valueOf` text as given, and the model does not compute number formatting.
- Map entry order: a map's entries are a sequence in Jackson's `LinkedHashMap` iteration order, which the model takes as given. That order decides which put wins when two names collide, and the text of a map inside a list's join (`{a=1, b=2}` against `{b=2, a=1}`). The order of `sourceMap`, a `HashMap`, affects only `GetPropertyNames`.
- The `EnumerablePropertySource` base class: only the source's name is modelled, not the configuration object it also keeps or the Spring machinery around it.
- The `null` parent path of the top-level call is modelled as `""`. `hasText` treats the two alike.
- AssignProperties: the `int` counter `count` is unbounded in the model. Its wrap-around past 2^31 − 1 elements is not modelled.
- GetPropertyNames: returns a sequence instead of a `String[]`, and its order is unspecified.
- ScalarEntryProjected: stated only for logs where no name is put twice. When names collide, `ApplyPutsLastWins` says which value is kept.
- ListEntryProjected: stated only for logs where no name is put twice. When names collide, `ApplyPutsLastWins` says which value is kept.
- LeafProjected: stated only for configurations where no name is put twice. When names collide, `FlattenLookup` says which value is kept.
- ListNodeProjected: stated only for configurations where no name is put twice. When names collide, `FlattenLookup` says which value is kept.
- The `Object` value type of `sourceMap` is modelled as `string`, since every value the walk stores is a string.
