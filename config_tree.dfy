/**
 * The configuration tree the property source reads: what Jackson's
 * `convertValue(configuration, Map<String, Object>)` produces, a map of string
 * keys to strings, other scalars (numbers, booleans), nulls, nested maps and
 * lists.
 */
module ConfigTree {

  /** One value of the tree. `Other` carries the `String.valueOf` text of a
      number or a boolean, which the model does not compute. */
  datatype Node =
    | Str(s: string)
    | Null
    | Other(text: string)
    | Map(entries: seq<Entry>)
    | List(items: seq<Node>)
  {
    predicate IsScalar() {
      Str? || Null? || Other?
    }
  }

  /** One key/value pair of a map, in the map's iteration order. */
  datatype Entry = Entry(key: string, value: Node)

  /** What the source stores for a scalar leaf: a string as it is, null as "",
      anything else as its `String.valueOf` text. */
  function LeafText(n: Node): string
    requires n.IsScalar()
  {
    match n
    case Str(s) => s
    case Null => ""
    case Other(t) => t
  }

  // ---------------------------------------------------------------------------
  // `String.valueOf` of a tree value, as the comma join renders each element.
  // Jackson builds maps as LinkedHashMap and lists as ArrayList, whose
  // `toString` are "{k=v, k=v}" and "[a, b]"; null is "null".

  function JavaString(n: Node): string
    decreases n
  {
    match n
    case Str(s) => s
    case Null => "null"
    case Other(t) => t
    case Map(es) => "{" + EntriesString(es) + "}"
    case List(xs) => "[" + ItemsString(xs) + "]"
  }

  function EntriesString(es: seq<Entry>): string
    decreases es
  {
    if es == [] then ""
    else
      var e := es[0];
      assert e in es;
      e.key + "=" + JavaString(e.value) + (if |es| == 1 then "" else ", " + EntriesString(es[1..]))
  }

  function ItemsString(xs: seq<Node>): string
    decreases xs
  {
    if xs == [] then ""
    else JavaString(xs[0]) + (if |xs| == 1 then "" else ", " + ItemsString(xs[1..]))
  }

  /** The texts of a list's elements, in order, as the comma join sees them. */
  function ElementTexts(xs: seq<Node>): (texts: seq<string>)
    ensures |texts| == |xs|
    ensures forall i | 0 <= i < |xs| :: texts[i] == JavaString(xs[i])
  {
    if xs == [] then [] else [JavaString(xs[0])] + ElementTexts(xs[1..])
  }

  /** A non-null scalar renders the same in a join as it is stored as a leaf;
      null is the one exception ("null" in a join, "" as a leaf). */
  lemma JoinTextOfScalar(n: Node)
    requires n.IsScalar()
    ensures n.Null? <==> JavaString(n) != LeafText(n)
  {
  }

  // ---------------------------------------------------------------------------
  // Height: a termination measure for the walk, which recurses into a fresh
  // one-entry map for each list element.

  function Max(a: nat, b: nat): nat {
    if a < b then b else a
  }

  function Height(n: Node): nat
    decreases n
  {
    match n
    case Map(es) => 1 + EntriesHeight(es)
    case List(xs) => 1 + ItemsHeight(xs)
    case _ => 0
  }

  function EntriesHeight(es: seq<Entry>): nat
    decreases es
  {
    if es == [] then 0
    else
      var e := es[0];
      assert e in es;
      Max(Height(e.value), EntriesHeight(es[1..]))
  }

  function ItemsHeight(xs: seq<Node>): nat
    decreases xs
  {
    if xs == [] then 0 else Max(Height(xs[0]), ItemsHeight(xs[1..]))
  }

  lemma {:induction false} EntriesHeightBound(es: seq<Entry>, j: nat)
    requires j < |es|
    ensures Height(es[j].value) <= EntriesHeight(es)
  {
    if j > 0 {
      EntriesHeightBound(es[1..], j - 1);
    }
  }

  lemma {:induction false} ItemsHeightBound(xs: seq<Node>, i: nat)
    requires i < |xs|
    ensures Height(xs[i]) <= ItemsHeight(xs)
  {
    if i > 0 {
      ItemsHeightBound(xs[1..], i - 1);
    }
  }

  /** The one-entry map made for element `i` of the list in entry `j` is lower
      than the map holding the list. */
  lemma ElementEntryLower(es: seq<Entry>, j: nat, i: nat, k: string)
    requires j < |es| && es[j].value.List? && i < |es[j].value.items|
    ensures EntriesHeight([Entry(k, es[j].value.items[i])]) < EntriesHeight(es)
  {
    var xs := es[j].value.items;
    EntriesHeightBound(es, j);
    ItemsHeightBound(xs, i);
    assert [Entry(k, xs[i])][1..] == [];
  }

  // ---------------------------------------------------------------------------
  // Census: how many scalar leaves and how many list nodes a value holds
  // (counting the value itself).

  function ScalarLeaves(n: Node): nat
    decreases n
  {
    match n
    case Map(es) => EntriesScalarLeaves(es)
    case List(xs) => ItemsScalarLeaves(xs)
    case _ => 1
  }

  function EntriesScalarLeaves(es: seq<Entry>): nat
    decreases es
  {
    if es == [] then 0
    else
      var e := es[0];
      assert e in es;
      ScalarLeaves(e.value) + EntriesScalarLeaves(es[1..])
  }

  function ItemsScalarLeaves(xs: seq<Node>): nat
    decreases xs
  {
    if xs == [] then 0 else ScalarLeaves(xs[0]) + ItemsScalarLeaves(xs[1..])
  }

  function ListNodes(n: Node): nat
    decreases n
  {
    match n
    case Map(es) => EntriesListNodes(es)
    case List(xs) => 1 + ItemsListNodes(xs)
    case _ => 0
  }

  function EntriesListNodes(es: seq<Entry>): nat
    decreases es
  {
    if es == [] then 0
    else
      var e := es[0];
      assert e in es;
      ListNodes(e.value) + EntriesListNodes(es[1..])
  }

  function ItemsListNodes(xs: seq<Node>): nat
    decreases xs
  {
    if xs == [] then 0 else ListNodes(xs[0]) + ItemsListNodes(xs[1..])
  }
}
