/**
 * `ConfigurationPropertySource`: a property source whose `sourceMap` is filled
 * once, at construction, by walking the configuration tree, and afterwards only
 * read.
 */
module PropertySource {
  import opened Wrappers
  import opened StringUtils
  import opened ConfigTree
  import opened Flattening

  class ConfigurationPropertySource {
    /** The name the source registers under. */
    const name: string := "dwConfigurationPropertySource"

    /** Property name to value. The source declares its values as `Object`;
        every value it stores is a `String`, which this type records. */
    var sourceMap: map<string, string>

    /** Builds the source from the tree Jackson made of the configuration. */
    constructor (configuration: seq<Entry>)
      ensures sourceMap == Flatten(configuration)
    {
      sourceMap := map[];
      new;
      LoadData(configuration);
    }

    /** Walks the top-level map with no parent path (`null` in the source). */
    method LoadData(configuration: seq<Entry>)
      modifies this
      ensures sourceMap == ApplyPuts(old(sourceMap), PutsForEntries(configuration, ""))
    {
      AssignProperties(configuration, "");
    }

    /** Puts every property of the map entries `input` found at `path`, in
        iteration order, into `sourceMap`. */
    method AssignProperties(input: seq<Entry>, path: string)
      modifies this
      ensures sourceMap == ApplyPuts(old(sourceMap), PutsForEntries(input, path))
      decreases EntriesHeight(input)
    {
      var j := 0;
      while j < |input|
        invariant 0 <= j <= |input|
        invariant sourceMap == ApplyPuts(old(sourceMap), PutsForEntries(input[..j], path))
      {
        ghost var before := sourceMap;
        var key := ChildPath(path, input[j].key);
        var value := input[j].value;
        match value {
          case Str(s) =>
            sourceMap := sourceMap[key := s];
            assert sourceMap == ApplyPuts(before, PutsForValue(value, key)) by { ApplyOnePut(before, key, s); }
          case Map(es) =>
            EntriesHeightBound(input, j);
            AssignProperties(es, key);
          case List(xs) =>
            sourceMap := sourceMap[key := CommaDelimited(ElementTexts(xs))];
            ghost var joined := sourceMap;
            assert joined == ApplyPuts(before, [(key, CommaDelimited(ElementTexts(xs)))]) by {
              ApplyOnePut(before, key, CommaDelimited(ElementTexts(xs)));
            }
            var count := 0;
            assert sourceMap == ApplyPuts(joined, PutsForElements(xs[..count], 0, key)) by {
              assert xs[..count] == [];
            }
            while count < |xs|
              invariant 0 <= count <= |xs|
              invariant sourceMap == ApplyPuts(joined, PutsForElements(xs[..count], 0, key))
            {
              ElementEntryLower(input, j, count, IndexKey(count));
              AssignProperties([Entry(IndexKey(count), xs[count])], key);
              assert sourceMap == ApplyPuts(joined, PutsForElements(xs[..count + 1], 0, key)) by {
                SingletonEntryPuts(IndexKey(count), xs[count], key);
                ElementPutsStep(joined, xs, key, count);
              }
              count := count + 1;
            }
            assert sourceMap == ApplyPuts(before, PutsForValue(value, key)) by {
              assert xs[..count] == xs;
              ListPutsApplied(before, xs, key);
            }
          case Null =>
            sourceMap := sourceMap[key := ""];
            assert sourceMap == ApplyPuts(before, PutsForValue(value, key)) by { ApplyOnePut(before, key, ""); }
          case Other(t) =>
            sourceMap := sourceMap[key := t];
            assert sourceMap == ApplyPuts(before, PutsForValue(value, key)) by { ApplyOnePut(before, key, t); }
        }
        assert sourceMap == ApplyPuts(old(sourceMap), PutsForEntries(input[..j + 1], path)) by {
          EntriesPutsStep(old(sourceMap), input, path, j);
        }
        j := j + 1;
      }
      assert input[..j] == input;
    }

    /** The value stored under `name`, or nothing (`null` in the source). */
    function GetProperty(name: string): (r: Option<string>)
      reads this
      ensures r.Some? <==> name in sourceMap
      ensures r.Some? ==> r.value == sourceMap[name]
    {
      if name in sourceMap then Some(sourceMap[name]) else None
    }

    /** Every property name, each once, in no particular order. */
    method GetPropertyNames() returns (names: seq<string>)
      ensures forall k :: k in names <==> k in sourceMap
      ensures forall i, j | 0 <= i < j < |names| :: names[i] != names[j]
    {
      names := [];
      var rest := sourceMap.Keys;
      while rest != {}
        invariant rest <= sourceMap.Keys
        invariant forall k :: k in names <==> k in sourceMap && k !in rest
        invariant forall i, j | 0 <= i < j < |names| :: names[i] != names[j]
        decreases rest
      {
        var k :| k in rest;
        names := names + [k];
        rest := rest - {k};
      }
    }
  }

  /** Once built from `configuration`, the source answers each lookup with the
      last value the walk put under that name, and with nothing for a name the
      walk never put. */
  lemma GetPropertyIsLastPut(source: ConfigurationPropertySource, configuration: seq<Entry>, name: string)
    requires source.sourceMap == Flatten(configuration)
    ensures source.GetProperty(name) == LastPut(PutsForEntries(configuration, ""), name)
  {
    FlattenLookup(configuration, name);
  }
}
