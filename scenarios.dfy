/**
 * Concrete configurations and the property maps they project to: the
 * repository's own test, and the edge cases of the naming rule.
 */
module Scenarios {
  import opened Wrappers
  import opened StringUtils
  import opened ConfigTree
  import opened Flattening
  import opened PropertySource

  /** The `test` entry of the repository's test configuration:
      `"test": {"first": "test1", "second": ["test2", "test3"], "third": 4}`.
      The whole configuration also holds the entries of Dropwizard's base
      `Configuration` (`server`, `logging`, `metrics`, ...), which
      `SimpleTestLookups` allows around it. */
  function TestConfiguration(): seq<Entry> {
    [Entry("test", Map([
      Entry("first", Str("test1")),
      Entry("second", List([Str("test2"), Str("test3")])),
      Entry("third", Other("4"))]))]
  }

  /** The five properties the repository's test looks up, with their values. */
  function SimpleTestExpected(): map<string, string> {
    map[
      "test.first" := "test1",
      "test.second" := "test2,test3",
      "test.second[0]" := "test2",
      "test.second[1]" := "test3",
      "test.third" := "4"]
  }

  /** Whatever entries come before the `test` entry, and whatever entries come
      after it that put none of the five names, each lookup the test makes gives
      the value it expects. */
  lemma SimpleTestLookups(before: seq<Entry>, after: seq<Entry>)
    requires forall w | w in PutsForEntries(after, "") :: w.0 !in SimpleTestExpected()
    ensures var m := Flatten(before + TestConfiguration() + after);
            forall k | k in SimpleTestExpected() :: k in m && m[k] == SimpleTestExpected()[k]
  {
    var mid := ApplyPuts(ApplyPuts(map[], PutsForEntries(before, "")), PutsForEntries(TestConfiguration(), ""));
    FlattenAround(before, TestConfiguration(), after);
    assert mid == ApplyPuts(map[], PutsForEntries(before, "")) + SimpleTestExpected() by {
      TestEntryPuts();
      TestPutsOverwrite(ApplyPuts(map[], PutsForEntries(before, "")));
    }
    forall k | k in SimpleTestExpected()
      ensures k in ApplyPuts(mid, PutsForEntries(after, ""))
      ensures ApplyPuts(mid, PutsForEntries(after, ""))[k] == SimpleTestExpected()[k]
    {
      ApplyPutsKeepsUnput(mid, PutsForEntries(after, ""), k);
    }
  }

  /** The `test` entry's puts, named from the root. */
  lemma TestEntryPuts()
    ensures PutsForEntries(TestConfiguration(), "") == [
      ("test.first", "test1"),
      ("test.second", "test2,test3"),
      ("test.second[0]", "test2"),
      ("test.second[1]", "test3"),
      ("test.third", "4")]
  {
    SimpleTestPuts();
    SingletonEntryPuts("test", Map(TestConfiguration()[0].value.entries), "");
  }

  /** The test's five puts overwrite those names in any map and leave the rest. */
  lemma TestPutsOverwrite(m: map<string, string>)
    ensures ApplyPuts(m, [
      ("test.first", "test1"),
      ("test.second", "test2,test3"),
      ("test.second[0]", "test2"),
      ("test.second[1]", "test3"),
      ("test.third", "4")]) == m + SimpleTestExpected()
  {
    var ws := [
      ("test.first", "test1"),
      ("test.second", "test2,test3"),
      ("test.second[0]", "test2"),
      ("test.second[1]", "test3"),
      ("test.third", "4")];
    assert ws == ws[..3] + ws[3..];
    ApplyPutsConcat(m, ws[..3], ws[3..]);
  }

  /** The `test` subtree alone projects to exactly the five properties. */
  lemma SimpleTestProjection()
    ensures Flatten(TestConfiguration()) == map[
      "test.first" := "test1",
      "test.second" := "test2,test3",
      "test.second[0]" := "test2",
      "test.second[1]" := "test3",
      "test.third" := "4"]
  {
    var inner := TestConfiguration()[0].value.entries;
    SimpleTestPuts();
    SingletonEntryPuts("test", Map(inner), "");
    var ws := [
      ("test.first", "test1"),
      ("test.second", "test2,test3"),
      ("test.second[0]", "test2"),
      ("test.second[1]", "test3"),
      ("test.third", "4")];
    assert ws == ws[..3] + ws[3..];
    ApplyPutsConcat(map[], ws[..3], ws[3..]);
  }

  /** The puts the walk makes for the test's configuration, in order. */
  lemma SimpleTestPuts()
    ensures PutsForEntries(TestConfiguration()[0].value.entries, "test") == [
      ("test.first", "test1"),
      ("test.second", "test2,test3"),
      ("test.second[0]", "test2"),
      ("test.second[1]", "test3"),
      ("test.third", "4")]
  {
    var head := [Entry("first", Str("test1"))];
    var tail := [Entry("second", List([Str("test2"), Str("test3")])), Entry("third", Other("4"))];
    FirstEntryPuts();
    SecondAndThirdPuts();
    assert TestConfiguration()[0].value.entries == head + tail;
    EntriesPutsAppend(head, tail, "test");
  }

  lemma FirstEntryPuts()
    ensures PutsForEntries([Entry("first", Str("test1"))], "test") == [("test.first", "test1")]
  {
    assert HasText("test") by { assert !IsWhitespace("test"[0]); }
    assert ChildPath("test", "first") == "test.first";
    SingletonEntryPuts("first", Str("test1"), "test");
  }

  lemma SecondAndThirdPuts()
    ensures PutsForEntries([Entry("second", List([Str("test2"), Str("test3")])), Entry("third", Other("4"))], "test") == [
      ("test.second", "test2,test3"),
      ("test.second[0]", "test2"),
      ("test.second[1]", "test3"),
      ("test.third", "4")]
  {
    assert HasText("test") by { assert !IsWhitespace("test"[0]); }
    assert ChildPath("test", "second") == "test.second";
    assert ChildPath("test", "third") == "test.third";
    SecondListPuts();
    TwoEntryPuts(Entry("second", List([Str("test2"), Str("test3")])), Entry("third", Other("4")), "test");
  }

  /** The list "test.second" puts its join, then its two elements. */
  lemma SecondListPuts()
    ensures PutsForValue(List([Str("test2"), Str("test3")]), "test.second") == [
      ("test.second", "test2,test3"),
      ("test.second[0]", "test2"),
      ("test.second[1]", "test3")]
  {
    assert HasText("test.second") by { assert !IsWhitespace("test.second"[0]); }
    IndexKeysZeroOne();
    assert ChildPath("test.second", "[0]") == "test.second[0]";
    assert ChildPath("test.second", "[1]") == "test.second[1]";
    var second := [Str("test2"), Str("test3")];
    TwoElementPuts(second, "test.second");
    assert CommaDelimited(ElementTexts(second)) == "test2,test3";
  }

  /** The repository's test restated against the class, for a configuration
      that holds the `test` entry among others: the verifier proves each lookup
      it asserts. */
  method SimpleTest(before: seq<Entry>, after: seq<Entry>)
    requires forall w | w in PutsForEntries(after, "") :: w.0 !in SimpleTestExpected()
  {
    var source := new ConfigurationPropertySource(before + TestConfiguration() + after);
    SimpleTestLookups(before, after);
    assert "test.first" in SimpleTestExpected();
    assert source.GetProperty("test.first") == Some("test1");
    assert "test.second[0]" in SimpleTestExpected();
    assert source.GetProperty("test.second[0]") == Some("test2");
    assert "test.second[1]" in SimpleTestExpected();
    assert source.GetProperty("test.second[1]") == Some("test3");
    assert "test.second" in SimpleTestExpected();
    assert source.GetProperty("test.second") == Some("test2,test3");
    assert "test.third" in SimpleTestExpected();
    assert source.GetProperty("test.third") == Some("4");
  }

  /** Scalars of each kind: a string as it is, a number or boolean as its text,
      null as "". */
  lemma ScalarsProjection()
    ensures Flatten([
      Entry("a", Str("x")), Entry("b", Other("4")), Entry("c", Other("true")), Entry("d", Null)])
      == map["a" := "x", "b" := "4", "c" := "true", "d" := ""]
  {
    var es := [Entry("a", Str("x")), Entry("b", Other("4")), Entry("c", Other("true")), Entry("d", Null)];
    assert es == [es[0], es[1]] + [es[2], es[3]];
    EntriesPutsAppend([es[0], es[1]], [es[2], es[3]], "");
    TwoEntryPuts(es[0], es[1], "");
    TwoEntryPuts(es[2], es[3], "");
    var ws := [("a", "x"), ("b", "4"), ("c", "true"), ("d", "")];
    assert PutsForEntries(es, "") == ws;
  }

  /** A nested map puts nothing under its own name. */
  lemma NestedMapProjection()
    ensures Flatten([Entry("outer", Map([Entry("inner", Str("v"))]))]) == map["outer.inner" := "v"]
  {
    assert HasText("outer") by { assert !IsWhitespace("outer"[0]); }
    assert ChildPath("outer", "inner") == "outer.inner";
    SingletonEntryPuts("inner", Str("v"), "outer");
    SingletonEntryPuts("outer", Map([Entry("inner", Str("v"))]), "");
  }

  /** An empty list puts "" under its own name and no indexed name. */
  lemma EmptyListProjection()
    ensures Flatten([Entry("xs", List([]))]) == map["xs" := ""]
  {
    SingletonEntryPuts("xs", List([]), "");
  }

  /** A null list element joins as "null" but is stored as "" under its index. */
  lemma NullElementProjection()
    ensures Flatten([Entry("xs", List([Str("a"), Null]))])
      == map["xs" := "a,null", "xs[0]" := "a", "xs[1]" := ""]
  {
    assert HasText("xs") by { assert !IsWhitespace("xs"[0]); }
    IndexKeysZeroOne();
    assert ChildPath("xs", "[0]") == "xs[0]";
    assert ChildPath("xs", "[1]") == "xs[1]";
    TwoElementPuts([Str("a"), Null], "xs");
    assert CommaDelimited(ElementTexts([Str("a"), Null])) == "a,null";
    SingletonEntryPuts("xs", List([Str("a"), Null]), "");
  }

  /** A list of maps: its elements' entries under "items[i].k"; the join holds
      each map's `toString`. */
  lemma ListOfMapsProjection()
    ensures Flatten([Entry("items", List([Map([Entry("k", Str("a"))]), Map([Entry("k", Str("b"))])]))])
      == map["items" := "{k=a},{k=b}", "items[0].k" := "a", "items[1].k" := "b"]
  {
    var xs := [Map([Entry("k", Str("a"))]), Map([Entry("k", Str("b"))])];
    ListOfMapsPuts(xs);
    SingletonEntryPuts("items", List(xs), "");
  }

  lemma ListOfMapsPuts(xs: seq<Node>)
    requires xs == [Map([Entry("k", Str("a"))]), Map([Entry("k", Str("b"))])]
    ensures PutsForValue(List(xs), "items")
         == [("items", "{k=a},{k=b}"), ("items[0].k", "a"), ("items[1].k", "b")]
  {
    assert HasText("items") by { assert !IsWhitespace("items"[0]); }
    IndexKeysZeroOne();
    assert ChildPath("items", "[0]") == "items[0]";
    assert ChildPath("items", "[1]") == "items[1]";
    assert HasText("items[0]") by { assert !IsWhitespace("items[0]"[0]); }
    assert HasText("items[1]") by { assert !IsWhitespace("items[1]"[0]); }
    MapElementPuts("items[0]", "a");
    MapElementPuts("items[1]", "b");
    assert "items[0]" + ".k" == "items[0].k" && "items[1]" + ".k" == "items[1].k";
    TwoElementPuts(xs, "items");
    ListOfMapsJoin(xs);
  }

  /** Each map element joins as its `toString`. */
  lemma ListOfMapsJoin(xs: seq<Node>)
    requires xs == [Map([Entry("k", Str("a"))]), Map([Entry("k", Str("b"))])]
    ensures CommaDelimited(ElementTexts(xs)) == "{k=a},{k=b}"
  {
    assert JavaString(xs[0]) == "{k=a}";
    assert JavaString(xs[1]) == "{k=b}";
  }

  /** A one-entry map {k=v} at a path with text puts "<path>.k". */
  lemma MapElementPuts(path: string, v: string)
    requires HasText(path)
    ensures PutsForValue(Map([Entry("k", Str(v))]), path) == [(path + ".k", v)]
  {
    assert ChildPath(path, "k") == path + ".k" by {
      assert path + "." + "k" == path + ".k";
    }
    SingletonEntryPuts("k", Str(v), path);
  }

  /** A key that starts with '[' is appended without a dot. */
  lemma BracketKeyProjection()
    ensures Flatten([Entry("a", Map([Entry("[0]", Str("k"))]))]) == map["a[0]" := "k"]
  {
    assert HasText("a") by { assert !IsWhitespace("a"[0]); }
    assert ChildPath("a", "[0]") == "a[0]";
    SingletonEntryPuts("[0]", Str("k"), "a");
    SingletonEntryPuts("a", Map([Entry("[0]", Str("k"))]), "");
  }

  /** Keys are not escaped: a literal key "a.b" and the entry "b" of a map at
      "a" get the same name, and the later put wins, so two scalar leaves leave
      one property. */
  lemma DottedKeyCollision()
    ensures Flatten([Entry("a.b", Str("1")), Entry("a", Map([Entry("b", Str("2"))]))]) == map["a.b" := "2"]
  {
    assert HasText("a") by { assert !IsWhitespace("a"[0]); }
    assert ChildPath("a", "b") == "a.b";
    SingletonEntryPuts("b", Str("2"), "a");
    TwoEntryPuts(Entry("a.b", Str("1")), Entry("a", Map([Entry("b", Str("2"))])), "");
  }

  /** A parent whose name is whitespace only has no text, so its children are
      named by their keys alone. */
  lemma BlankParentDropped()
    ensures Flatten([Entry(" ", Map([Entry("x", Str("1"))]))]) == map["x" := "1"]
  {
    assert !HasText(" ") by { BlankHasNoText(" "); }
    SingletonEntryPuts("x", Str("1"), " ");
    SingletonEntryPuts(" ", Map([Entry("x", Str("1"))]), "");
  }

  // ---------------------------------------------------------------------------
  // Unfolding helpers for small literal trees

  lemma IndexKeysZeroOne()
    ensures IndexKey(0) == "[0]" && IndexKey(1) == "[1]"
  {
    assert DecimalString(0) == "0" && DecimalString(1) == "1";
  }

  lemma TwoEntryPuts(e1: Entry, e2: Entry, path: string)
    ensures PutsForEntries([e1, e2], path)
         == PutsForValue(e1.value, ChildPath(path, e1.key)) + PutsForValue(e2.value, ChildPath(path, e2.key))
  {
    assert [e1, e2] == [e1] + [e2];
    EntriesPutsAppend([e1], [e2], path);
    SingletonEntryPuts(e1.key, e1.value, path);
    SingletonEntryPuts(e2.key, e2.value, path);
  }

  lemma TwoElementPuts(xs: seq<Node>, key: string)
    requires |xs| == 2
    ensures PutsForValue(List(xs), key)
         == [(key, CommaDelimited(ElementTexts(xs)))]
          + PutsForValue(xs[0], ChildPath(key, IndexKey(0)))
          + PutsForValue(xs[1], ChildPath(key, IndexKey(1)))
  {
    var a := PutsForValue(xs[0], ChildPath(key, IndexKey(0)));
    var b := PutsForValue(xs[1], ChildPath(key, IndexKey(1)));
    assert xs[1..][1..] == [];
    assert PutsForElements(xs[1..], 1, key) == b + PutsForElements([], 2, key) == b;
    assert PutsForElements(xs, 0, key) == a + b;
  }
}
