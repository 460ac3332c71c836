/**
 * The projection of a configuration tree onto dotted property names, stated as
 * pure functions.
 *
 * The walk is described by the sequence of `sourceMap.put(key, value)` calls it
 * makes, in the order it makes them (its put log); the property map is what
 * those puts leave behind, the last put to a key winning.
 */
module Flattening {
  import opened Wrappers
  import opened StringUtils
  import opened ConfigTree

  /** One `sourceMap.put(key, value)`: (key, value). */
  type Put = (string, string)

  // ---------------------------------------------------------------------------
  // Property names

  predicate StartsWithBracket(key: string) {
    |key| > 0 && key[0] == '['
  }

  /** The property name of the child `key` of a map at `path`: the key alone
      when the path has no text, the path and the key when the key starts
      with '[', and the path, a '.' and the key otherwise. */
  function ChildPath(path: string, key: string): string {
    if !HasText(path) then key
    else if StartsWithBracket(key) then path + key
    else path + "." + key
  }

  /** Below a path with text, a child's name strictly extends the path (and so
      has text too); below one without, it is the key alone. */
  lemma ChildPathExtends(path: string, key: string)
    ensures !HasText(path) ==> ChildPath(path, key) == key
    ensures HasText(path) ==> var child := ChildPath(path, key);
      path < child && HasText(child)
  {
    if HasText(path) {
      if StartsWithBracket(key) {
        HasTextExtends(path, key);
      } else {
        HasTextExtends(path, "." + key);
        assert path + "." + key == path + ("." + key);
      }
    }
  }

  /** Recovers a child's key from its property name and its parent's path. */
  function ChildKey(path: string, child: string): string
    requires HasText(path) ==> |path| < |child|
  {
    if !HasText(path) then child
    else
      var rest := child[|path|..];
      if rest[0] == '.' then rest[1..] else rest
  }

  lemma ChildKeyRoundTrip(path: string, key: string)
    ensures ChildKey(path, ChildPath(path, key)) == key
  {
    if HasText(path) {
      var child := ChildPath(path, key);
      ChildPathExtends(path, key);
      if StartsWithBracket(key) {
        assert child[|path|..] == key;
      } else {
        assert child[|path|..] == "." + key;
      }
    }
  }

  /** Two distinct keys of one map never get the same property name. */
  lemma ChildPathInjective(path: string, k1: string, k2: string)
    requires ChildPath(path, k1) == ChildPath(path, k2)
    ensures k1 == k2
  {
    ChildKeyRoundTrip(path, k1);
    ChildKeyRoundTrip(path, k2);
  }

  /** The key of list element `i`: "[" + i + "]". */
  function IndexKey(i: nat): string {
    "[" + DecimalString(i) + "]"
  }

  lemma IndexKeyInjective(i: nat, j: nat)
    requires IndexKey(i) == IndexKey(j)
    ensures i == j
  {
    var di, dj := DecimalString(i), DecimalString(j);
    assert IndexKey(i)[1..|IndexKey(i)| - 1] == di;
    assert IndexKey(j)[1..|IndexKey(j)| - 1] == dj;
    DecimalStringInjective(i, j);
  }

  /** Distinct elements of one list never get the same property name. */
  lemma ElementPathsDistinct(key: string, i: nat, j: nat)
    requires i != j
    ensures ChildPath(key, IndexKey(i)) != ChildPath(key, IndexKey(j))
  {
    if ChildPath(key, IndexKey(i)) == ChildPath(key, IndexKey(j)) {
      ChildPathInjective(key, IndexKey(i), IndexKey(j));
      IndexKeyInjective(i, j);
    }
  }

  // ---------------------------------------------------------------------------
  // The put log of the walk

  /** The puts for a value whose property name is `key`: a scalar puts its
      leaf text; a map puts nothing itself and walks its entries; a list puts
      the comma join of its elements, then walks each element as the one
      entry "[i]" of a map at `key`. */
  function PutsForValue(v: Node, key: string): seq<Put>
    decreases v
  {
    match v
    case Str(s) => [(key, s)]
    case Null => [(key, "")]
    case Other(t) => [(key, t)]
    case Map(es) => PutsForEntries(es, key)
    case List(xs) => [(key, CommaDelimited(ElementTexts(xs)))] + PutsForElements(xs, 0, key)
  }

  /** The puts for the entries of a map at `path`, in iteration order. */
  function PutsForEntries(es: seq<Entry>, path: string): seq<Put>
    decreases es
  {
    if es == [] then []
    else
      var e := es[0];
      assert e in es;
      PutsForValue(e.value, ChildPath(path, e.key)) + PutsForEntries(es[1..], path)
  }

  /** The puts for list elements `xs`, the first of which has index `from`. */
  function PutsForElements(xs: seq<Node>, from: nat, key: string): seq<Put>
    decreases xs
  {
    if xs == [] then []
    else PutsForValue(xs[0], ChildPath(key, IndexKey(from))) + PutsForElements(xs[1..], from + 1, key)
  }

  // ---------------------------------------------------------------------------
  // What a put log leaves in the map

  /** `m` after the puts `ws`, in order. */
  function ApplyPuts(m: map<string, string>, ws: seq<Put>): map<string, string>
    decreases ws
  {
    if ws == [] then m else ApplyPuts(m[ws[0].0 := ws[0].1], ws[1..])
  }

  /** The value of the last put to `k`, if any (reads the log from its end). */
  function LastPut(ws: seq<Put>, k: string): (r: Option<string>)
    ensures r.None? <==> forall i | 0 <= i < |ws| :: ws[i].0 != k
    ensures r.Some? ==> exists i | 0 <= i < |ws| ::
      ws[i] == (k, r.value) && forall j | i < j < |ws| :: ws[j].0 != k
  {
    if ws == [] then None
    else if ws[|ws| - 1].0 == k then Some(ws[|ws| - 1].1)
    else LastPut(ws[..|ws| - 1], k)
  }

  /** The property map of a configuration whose top level is the map `config`. */
  function Flatten(config: seq<Entry>): map<string, string> {
    ApplyPuts(map[], PutsForEntries(config, ""))
  }

  predicate DistinctKeys(ws: seq<Put>) {
    forall i, j | 0 <= i < j < |ws| :: ws[i].0 != ws[j].0
  }

  lemma {:induction false} ApplyPutsConcat(m: map<string, string>, a: seq<Put>, b: seq<Put>)
    ensures ApplyPuts(m, a + b) == ApplyPuts(ApplyPuts(m, a), b)
    decreases a
  {
    if a != [] {
      assert (a + b)[1..] == a[1..] + b;
      ApplyPutsConcat(m[a[0].0 := a[0].1], a[1..], b);
    } else {
      assert a + b == b;
    }
  }

  /** Last writer wins: after the puts, `k` is present exactly when it was
      before or some put wrote it, and holds the last value put, or else its
      old value. */
  lemma {:induction false} ApplyPutsLastWins(m: map<string, string>, ws: seq<Put>, k: string)
    ensures k in ApplyPuts(m, ws) <==> k in m || LastPut(ws, k).Some?
    ensures k in ApplyPuts(m, ws) ==>
      ApplyPuts(m, ws)[k] == if LastPut(ws, k).Some? then LastPut(ws, k).value else m[k]
  {
    if ws != [] {
      var front, last := ws[..|ws| - 1], ws[|ws| - 1];
      assert ws == front + [last];
      ApplyPutsConcat(m, front, [last]);
      ApplyPutsLastWins(m, front, k);
    }
  }

  /** Puts that never name `k` leave `k` as it was. */
  lemma ApplyPutsKeepsUnput(m: map<string, string>, ws: seq<Put>, k: string)
    requires forall w | w in ws :: w.0 != k
    ensures k in ApplyPuts(m, ws) <==> k in m
    ensures k in m ==> ApplyPuts(m, ws)[k] == m[k]
  {
    ApplyPutsLastWins(m, ws, k);
  }

  /** The projection of the entries `before`, `es` and `after` together applies
      their walks one after the other. */
  lemma FlattenAround(before: seq<Entry>, es: seq<Entry>, after: seq<Entry>)
    ensures Flatten(before + es + after)
         == ApplyPuts(ApplyPuts(ApplyPuts(map[], PutsForEntries(before, "")), PutsForEntries(es, "")),
                      PutsForEntries(after, ""))
  {
    var b, t, a := PutsForEntries(before, ""), PutsForEntries(es, ""), PutsForEntries(after, "");
    assert PutsForEntries(before + es + after, "") == b + t + a by {
      EntriesPutsAppend(before + es, after, "");
      EntriesPutsAppend(before, es, "");
    }
    ApplyPutsConcat(map[], b + t, a);
    ApplyPutsConcat(map[], b, t);
  }

  /** When no key is put twice, every put survives in the map. */
  lemma DistinctPutsStored(m: map<string, string>, ws: seq<Put>, i: nat)
    requires DistinctKeys(ws)
    requires i < |ws|
    ensures ws[i].0 in ApplyPuts(m, ws) && ApplyPuts(m, ws)[ws[i].0] == ws[i].1
  {
    ApplyPutsLastWins(m, ws, ws[i].0);
  }

  /** The property names are exactly the keys the walk puts. */
  lemma FlattenKeys(config: seq<Entry>)
    ensures Flatten(config).Keys == set w | w in PutsForEntries(config, "") :: w.0
  {
    var ws := PutsForEntries(config, "");
    forall k
      ensures k in Flatten(config) <==> k in (set w | w in ws :: w.0)
    {
      ApplyPutsLastWins(map[], ws, k);
      if k in (set w | w in ws :: w.0) {
        var w :| w in ws && w.0 == k;
      }
    }
  }

  /** Looking a name up in the property map gives the last value put to it. */
  lemma FlattenLookup(config: seq<Entry>, name: string)
    ensures name in Flatten(config) <==> LastPut(PutsForEntries(config, ""), name).Some?
    ensures name in Flatten(config) ==> Flatten(config)[name] == LastPut(PutsForEntries(config, ""), name).value
  {
    ApplyPutsLastWins(map[], PutsForEntries(config, ""), name);
  }

  /** Puts to distinct keys none of which is already present each add one
      property. */
  lemma {:induction false} ApplyDistinctPutsSize(m: map<string, string>, ws: seq<Put>)
    requires DistinctKeys(ws)
    requires forall i | 0 <= i < |ws| :: ws[i].0 !in m
    ensures |ApplyPuts(m, ws)| == |m| + |ws|
    decreases ws
  {
    if ws != [] {
      var m' := m[ws[0].0 := ws[0].1];
      assert |m'.Keys| == |m.Keys + {ws[0].0}| == |m.Keys| + 1;
      forall i | 0 <= i < |ws| - 1
        ensures ws[1..][i].0 !in m'
      {
        assert ws[1..][i] == ws[i + 1];
      }
      ApplyDistinctPutsSize(m', ws[1..]);
    }
  }

  // ---------------------------------------------------------------------------
  // The shape of the put log

  lemma {:induction false} EntriesPutsAppend(a: seq<Entry>, b: seq<Entry>, path: string)
    ensures PutsForEntries(a + b, path) == PutsForEntries(a, path) + PutsForEntries(b, path)
  {
    if a == [] {
      assert a + b == b;
    } else {
      assert (a + b)[0] == a[0];
      assert (a + b)[1..] == a[1..] + b;
      EntriesPutsAppend(a[1..], b, path);
    }
  }

  lemma {:induction false} ElementPutsAppend(a: seq<Node>, b: seq<Node>, from: nat, key: string)
    ensures PutsForElements(a + b, from, key)
         == PutsForElements(a, from, key) + PutsForElements(b, from + |a|, key)
  {
    if a == [] {
      assert a + b == b;
    } else {
      assert (a + b)[0] == a[0];
      assert (a + b)[1..] == a[1..] + b;
      ElementPutsAppend(a[1..], b, from + 1, key);
      assert from + 1 + |a[1..]| == from + |a|;
      ConcatAssoc(PutsForValue(a[0], ChildPath(key, IndexKey(from))),
                  PutsForElements(a[1..], from + 1, key), PutsForElements(b, from + |a|, key));
    }
  }

  /** Concatenation is associative. */
  lemma ConcatAssoc<T>(x: seq<T>, y: seq<T>, z: seq<T>)
    ensures x + (y + z) == (x + y) + z
  {
  }

  /** A one-entry map puts exactly what its one value puts, under the entry's
      property name. */
  lemma SingletonEntryPuts(key: string, v: Node, path: string)
    ensures PutsForEntries([Entry(key, v)], path) == PutsForValue(v, ChildPath(path, key))
  {
    assert [Entry(key, v)][1..] == [];
    assert PutsForEntries([Entry(key, v)], path)
        == PutsForValue(v, ChildPath(path, key)) + PutsForEntries([], path);
  }

  /** A scalar at `key` makes the one put of its leaf text at `key`. */
  lemma ScalarPuts(v: Node, key: string)
    requires v.IsScalar()
    ensures PutsForValue(v, key) == [(key, LeafText(v))]
  {
  }

  /** One put: the map with that key set to that value. */
  lemma ApplyOnePut(m: map<string, string>, k: string, v: string)
    ensures ApplyPuts(m, [(k, v)]) == m[k := v]
  {
    assert [(k, v)][1..] == [];
  }

  /** Applying the puts of entries `es[..j]` and then those of entry `j` is
      applying the puts of `es[..j + 1]`: one step of the walk's entry loop. */
  lemma EntriesPutsStep(m: map<string, string>, es: seq<Entry>, path: string, j: nat)
    requires j < |es|
    ensures ApplyPuts(ApplyPuts(m, PutsForEntries(es[..j], path)),
                      PutsForValue(es[j].value, ChildPath(path, es[j].key)))
         == ApplyPuts(m, PutsForEntries(es[..j + 1], path))
  {
    var own := PutsForValue(es[j].value, ChildPath(path, es[j].key));
    assert [es[j]][1..] == [];
    assert PutsForEntries([es[j]], path) == own + PutsForEntries([], path) == own;
    assert es[..j + 1] == es[..j] + [es[j]];
    EntriesPutsAppend(es[..j], [es[j]], path);
    ApplyPutsConcat(m, PutsForEntries(es[..j], path), PutsForEntries([es[j]], path));
  }

  /** One step of the walk's element loop, as `EntriesPutsStep` for entries. */
  lemma ElementPutsStep(m: map<string, string>, xs: seq<Node>, key: string, i: nat)
    requires i < |xs|
    ensures ApplyPuts(ApplyPuts(m, PutsForElements(xs[..i], 0, key)),
                      PutsForValue(xs[i], ChildPath(key, IndexKey(i))))
         == ApplyPuts(m, PutsForElements(xs[..i + 1], 0, key))
  {
    var before := PutsForElements(xs[..i], 0, key);
    var own := PutsForValue(xs[i], ChildPath(key, IndexKey(i)));
    assert PutsForElements(xs[..i + 1], 0, key) == before + own by {
      var prefix := xs[..i];
      assert xs[..i + 1] == prefix + [xs[i]];
      ElementPutsAppend(prefix, [xs[i]], 0, key);
      assert 0 + |prefix| == i;
      SingletonElementPuts(xs[i], i, key);
    }
    ApplyPutsConcat(m, before, own);
  }

  lemma SingletonElementPuts(x: Node, i: nat, key: string)
    ensures PutsForElements([x], i, key) == PutsForValue(x, ChildPath(key, IndexKey(i)))
  {
    assert [x][1..] == [];
    assert PutsForElements([x], i, key)
        == PutsForValue(x, ChildPath(key, IndexKey(i))) + PutsForElements([], i + 1, key);
  }

  /** Putting the join of a list and then the puts of all its elements is
      applying the puts of the list. */
  lemma ListPutsApplied(m: map<string, string>, xs: seq<Node>, key: string)
    ensures ApplyPuts(ApplyPuts(m, [(key, CommaDelimited(ElementTexts(xs)))]), PutsForElements(xs, 0, key))
         == ApplyPuts(m, PutsForValue(List(xs), key))
  {
    ApplyPutsConcat(m, [(key, CommaDelimited(ElementTexts(xs)))], PutsForElements(xs, 0, key));
  }

  /** The puts of map entry `j` are one contiguous run of the map's log, after
      those of the entries before it. */
  lemma EntryPutsSegment(es: seq<Entry>, path: string, j: nat)
    requires j < |es|
    ensures var ws := PutsForEntries(es, path);
            var lo := |PutsForEntries(es[..j], path)|;
            var own := PutsForValue(es[j].value, ChildPath(path, es[j].key));
            lo + |own| <= |ws| && ws[lo..lo + |own|] == own
  {
    assert es == es[..j] + [es[j]] + es[j + 1..];
    EntriesPutsAppend(es[..j] + [es[j]], es[j + 1..], path);
    EntriesPutsAppend(es[..j], [es[j]], path);
  }

  /** The puts of list element `i` (property name "<key>[from + i]") are one
      contiguous run of the list's element log, after those of the elements
      before it. */
  lemma ElementPutsSegment(xs: seq<Node>, from: nat, key: string, i: nat, index: nat)
    requires i < |xs| && index == from + i
    ensures var ws := PutsForElements(xs, from, key);
            var lo := |PutsForElements(xs[..i], from, key)|;
            var own := PutsForValue(xs[i], ChildPath(key, IndexKey(index)));
            lo + |own| <= |ws| && ws[lo..lo + |own|] == own
  {
    assert xs == xs[..i] + [xs[i]] + xs[i + 1..];
    ElementPutsAppend(xs[..i] + [xs[i]], xs[i + 1..], from, key);
    ElementPutsAppend(xs[..i], [xs[i]], from, key);
  }

  /** A list at `key` first puts the comma join of its elements at `key`
      itself, then the puts of its elements; an empty list puts "" at `key`
      and nothing else. */
  lemma ListPutsJoinFirst(xs: seq<Node>, key: string)
    ensures PutsForValue(List(xs), key)[0] == (key, CommaDelimited(ElementTexts(xs)))
    ensures PutsForValue(List(xs), key)[1..] == PutsForElements(xs, 0, key)
    ensures xs == [] ==> PutsForValue(List(xs), key) == [(key, "")]
  {
  }

  /** After the join, for each index i in order, come the puts of element i
      under "<key>[i]". */
  lemma ListPutsElement(xs: seq<Node>, key: string, i: nat)
    requires i < |xs|
    ensures var ws := PutsForValue(List(xs), key);
            var lo := 1 + |PutsForElements(xs[..i], 0, key)|;
            var own := PutsForValue(xs[i], ChildPath(key, IndexKey(i)));
            lo + |own| <= |ws| && ws[lo..lo + |own|] == own
  {
    ElementPutsSegment(xs, 0, key, i, i);
    ListPutsShift(xs, key, |PutsForElements(xs[..i], 0, key)|, PutsForValue(xs[i], ChildPath(key, IndexKey(i))));
  }

  /** A run of a list's element log is a run of the list's log, one put (the
      join) further on. */
  lemma ListPutsShift(xs: seq<Node>, key: string, lo: nat, own: seq<Put>)
    requires var es := PutsForElements(xs, 0, key);
             lo + |own| <= |es| && es[lo..lo + |own|] == own
    ensures var ws := PutsForValue(List(xs), key);
            1 + lo + |own| <= |ws| && ws[1 + lo..1 + lo + |own|] == own
  {
    var es := PutsForElements(xs, 0, key);
    var join := [(key, CommaDelimited(ElementTexts(xs)))];
    assert PutsForValue(List(xs), key) == join + es;
    SliceAfterPrefix(join, es, lo, |own|);
  }

  /** A run of `ws` sits, shifted by `|p|`, in `p + ws`. */
  lemma SliceAfterPrefix<T>(p: seq<T>, ws: seq<T>, lo: nat, n: nat)
    requires lo + n <= |ws|
    ensures (p + ws)[|p| + lo..|p| + lo + n] == ws[lo..lo + n]
  {
  }

  /** For a list of comma-free strings, splitting the joined value at its
      commas gives back the elements, in order. */
  lemma StringListJoin(xs: seq<Node>, key: string)
    requires |xs| > 0
    requires forall i | 0 <= i < |xs| :: xs[i].Str? && ',' !in xs[i].s
    ensures SplitOnComma(PutsForValue(List(xs), key)[0].1)
         == seq(|xs|, i requires 0 <= i < |xs| => xs[i].s)
  {
    var texts := ElementTexts(xs);
    SplitCommaDelimited(texts);
  }

  /** One put per scalar leaf and one per list node: a map puts nothing of
      its own. */
  lemma {:induction false} ValuePutCount(v: Node, key: string)
    ensures |PutsForValue(v, key)| == ScalarLeaves(v) + ListNodes(v)
    decreases v
  {
    match v
    case Map(es) => EntriesPutCount(es, key);
    case List(xs) => ElementsPutCount(xs, 0, key);
    case _ =>
  }

  lemma {:induction false} EntriesPutCount(es: seq<Entry>, path: string)
    ensures |PutsForEntries(es, path)| == EntriesScalarLeaves(es) + EntriesListNodes(es)
    decreases es
  {
    if es != [] {
      var e := es[0];
      assert e in es;
      ValuePutCount(e.value, ChildPath(path, e.key));
      EntriesPutCount(es[1..], path);
    }
  }

  lemma {:induction false} ElementsPutCount(xs: seq<Node>, from: nat, key: string)
    ensures |PutsForElements(xs, from, key)| == ItemsScalarLeaves(xs) + ItemsListNodes(xs)
    decreases xs
  {
    if xs != [] {
      ValuePutCount(xs[0], ChildPath(key, IndexKey(from)));
      ElementsPutCount(xs[1..], from + 1, key);
    }
  }

  /** When no name is put twice, the configuration has one property per scalar
      leaf and one per list, counted on the property map itself. */
  lemma FlattenSize(config: seq<Entry>)
    requires DistinctKeys(PutsForEntries(config, ""))
    ensures |Flatten(config)| == EntriesScalarLeaves(config) + EntriesListNodes(config)
  {
    ApplyDistinctPutsSize(map[], PutsForEntries(config, ""));
    EntriesPutCount(config, "");
  }

  /** Every put of a value at a path with text is named by that path or a
      name that begins with it. */
  lemma {:induction false} ValuePutsExtend(v: Node, key: string)
    requires HasText(key)
    ensures forall w | w in PutsForValue(v, key) :: key <= w.0
    decreases v
  {
    match v
    case Map(es) => MapPutsBelowPath(es, key);
    case List(xs) => ElementPutsBelowPath(xs, 0, key);
    case _ =>
  }

  /** A map at a path with text puts nothing under its own name: every put of
      its entries is named by a strict extension of that path. */
  lemma {:induction false} MapPutsBelowPath(es: seq<Entry>, path: string)
    requires HasText(path)
    ensures forall w | w in PutsForValue(Map(es), path) :: path < w.0
    decreases es
  {
    if es != [] {
      var e := es[0];
      assert e in es;
      var child := ChildPath(path, e.key);
      ChildPathExtends(path, e.key);
      ValuePutsExtend(e.value, child);
      MapPutsBelowPath(es[1..], path);
    }
  }

  lemma {:induction false} ElementPutsBelowPath(xs: seq<Node>, from: nat, key: string)
    requires HasText(key)
    ensures forall w | w in PutsForElements(xs, from, key) :: key < w.0
    decreases xs
  {
    if xs != [] {
      var child := ChildPath(key, IndexKey(from));
      ChildPathExtends(key, IndexKey(from));
      ValuePutsExtend(xs[0], child);
      ElementPutsBelowPath(xs[1..], from + 1, key);
    }
  }

  // ---------------------------------------------------------------------------
  // What the map holds when no two puts collide

  /** When no key is put twice, every put of a run of the log survives. */
  lemma SegmentStored(m: map<string, string>, ws: seq<Put>, lo: nat, own: seq<Put>, t: nat)
    requires DistinctKeys(ws)
    requires lo + |own| <= |ws| && ws[lo..lo + |own|] == own
    requires t < |own|
    ensures own[t].0 in ApplyPuts(m, ws) && ApplyPuts(m, ws)[own[t].0] == own[t].1
  {
    assert ws[lo + t] == ws[lo..lo + |own|][t];
    DistinctPutsStored(m, ws, lo + t);
  }

  /** A scalar entry of a map is stored under its property name with its leaf
      text, once no name is put twice. */
  lemma ScalarEntryProjected(m: map<string, string>, es: seq<Entry>, path: string, j: nat)
    requires j < |es| && es[j].value.IsScalar()
    requires DistinctKeys(PutsForEntries(es, path))
    ensures var name := ChildPath(path, es[j].key);
            var after := ApplyPuts(m, PutsForEntries(es, path));
            name in after && after[name] == LeafText(es[j].value)
  {
    EntryPutsSegment(es, path, j);
    var lo := |PutsForEntries(es[..j], path)|;
    SegmentStored(m, PutsForEntries(es, path), lo, PutsForValue(es[j].value, ChildPath(path, es[j].key)), 0);
  }

  /** A list entry of a map is stored as its comma join under its own name and,
      for each scalar element i, as that element's leaf text under "<name>[i]",
      once no name is put twice. */
  lemma ListEntryProjected(m: map<string, string>, es: seq<Entry>, path: string, j: nat, i: nat)
    requires j < |es| && es[j].value.List?
    requires i < |es[j].value.items| && es[j].value.items[i].IsScalar()
    requires DistinctKeys(PutsForEntries(es, path))
    ensures var name := ChildPath(path, es[j].key);
            var xs := es[j].value.items;
            var after := ApplyPuts(m, PutsForEntries(es, path));
            && name in after && after[name] == CommaDelimited(ElementTexts(xs))
            && ChildPath(name, IndexKey(i)) in after
            && after[ChildPath(name, IndexKey(i))] == LeafText(xs[i])
  {
    var ws := PutsForEntries(es, path);
    var after := ApplyPuts(m, ws);
    var name := ChildPath(path, es[j].key);
    var xs := es[j].value.items;
    var lo := |PutsForEntries(es[..j], path)|;
    var own := PutsForValue(List(xs), name);
    assert lo + |own| <= |ws| && ws[lo..lo + |own|] == own by {
      EntryPutsSegment(es, path, j);
    }
    assert name in after && after[name] == CommaDelimited(ElementTexts(xs)) by {
      ListPutsJoinFirst(xs, name);
      SegmentStored(m, ws, lo, own, 0);
    }
    ListElementStored(m, ws, lo, xs, name, i);
  }

  /** Within a log whose keys are distinct, a list's run stores each scalar
      element under "<name>[i]". */
  lemma ListElementStored(m: map<string, string>, ws: seq<Put>, lo: nat, xs: seq<Node>, name: string, i: nat)
    requires DistinctKeys(ws)
    requires i < |xs| && xs[i].IsScalar()
    requires var own := PutsForValue(List(xs), name);
             lo + |own| <= |ws| && ws[lo..lo + |own|] == own
    ensures var child := ChildPath(name, IndexKey(i));
            child in ApplyPuts(m, ws) && ApplyPuts(m, ws)[child] == LeafText(xs[i])
  {
    var own := PutsForValue(List(xs), name);
    var child := ChildPath(name, IndexKey(i));
    var at := 1 + |PutsForElements(xs[..i], 0, name)|;
    var elem := PutsForValue(xs[i], child);
    assert lo + at + |elem| <= |ws| && ws[lo + at..lo + at + |elem|] == elem by {
      ListPutsElement(xs, name, i);
      SliceOfSlice(ws, lo, own, at, elem);
    }
    assert elem == [(child, LeafText(xs[i]))] by {
      ScalarPuts(xs[i], child);
    }
    SegmentStored(m, ws, lo + at, elem, 0);
  }

  /** A run of a run of `ws` is a run of `ws`. */
  lemma SliceOfSlice<T>(ws: seq<T>, lo: nat, own: seq<T>, at: nat, inner: seq<T>)
    requires lo + |own| <= |ws| && ws[lo..lo + |own|] == own
    requires at + |inner| <= |own| && own[at..at + |inner|] == inner
    ensures lo + at + |inner| <= |ws| && ws[lo + at..lo + at + |inner|] == inner
  {
    forall k | 0 <= k < |inner|
      ensures ws[lo + at + k] == inner[k]
    {
      assert inner[k] == own[at + k] == ws[lo + at + k];
    }
  }

  // ---------------------------------------------------------------------------
  // Nodes at any depth

  /** One step down the tree: into entry `j` of a map, or element `i` of a
      list. */
  datatype Step = AtEntry(j: nat) | AtIndex(i: nat)

  /** The steps `pos` lead from `v` to a node of its tree. */
  predicate ValidPos(v: Node, pos: seq<Step>)
    decreases pos
  {
    pos == [] ||
    match pos[0]
    case AtEntry(j) => v.Map? && j < |v.entries| && ValidPos(v.entries[j].value, pos[1..])
    case AtIndex(i) => v.List? && i < |v.items| && ValidPos(v.items[i], pos[1..])
  }

  /** The node the steps `pos` lead to from `v`. */
  function NodeAt(v: Node, pos: seq<Step>): Node
    requires ValidPos(v, pos)
    decreases pos
  {
    if pos == [] then v
    else match pos[0]
      case AtEntry(j) => NodeAt(v.entries[j].value, pos[1..])
      case AtIndex(i) => NodeAt(v.items[i], pos[1..])
  }

  /** The property name the walk gives the node at `pos` when `v` is named
      `key`: each step names its child by `ChildPath`. */
  function NameAt(v: Node, key: string, pos: seq<Step>): string
    requires ValidPos(v, pos)
    decreases pos
  {
    if pos == [] then key
    else match pos[0]
      case AtEntry(j) => NameAt(v.entries[j].value, ChildPath(key, v.entries[j].key), pos[1..])
      case AtIndex(i) => NameAt(v.items[i], ChildPath(key, IndexKey(i)), pos[1..])
  }

  /** Every put of the node at any position, under its full property name, is
      a put of the whole value. */
  lemma {:induction false} SubtreePutsIncluded(v: Node, key: string, pos: seq<Step>)
    requires ValidPos(v, pos)
    ensures forall w | w in PutsForValue(NodeAt(v, pos), NameAt(v, key, pos)) :: w in PutsForValue(v, key)
    decreases pos
  {
    if pos != [] {
      var rest := pos[1..];
      match pos[0]
      case AtEntry(j) =>
        var e := v.entries[j];
        SubtreePutsIncluded(e.value, ChildPath(key, e.key), rest);
        EntryPutsIncluded(v.entries, key, j);
      case AtIndex(i) =>
        SubtreePutsIncluded(v.items[i], ChildPath(key, IndexKey(i)), rest);
        ElementPutsIncluded(v.items, key, i);
    }
  }

  /** Every put of entry `j` is a put of the map. */
  lemma EntryPutsIncluded(es: seq<Entry>, key: string, j: nat)
    requires j < |es|
    ensures forall w | w in PutsForValue(es[j].value, ChildPath(key, es[j].key)) :: w in PutsForEntries(es, key)
  {
    assert es == es[..j] + [es[j]] + es[j + 1..];
    EntriesPutsAppend(es[..j] + [es[j]], es[j + 1..], key);
    EntriesPutsAppend(es[..j], [es[j]], key);
    SingletonEntryPuts(es[j].key, es[j].value, key);
  }

  /** Every put of element `i` is a put of the list. */
  lemma ElementPutsIncluded(xs: seq<Node>, key: string, i: nat)
    requires i < |xs|
    ensures forall w | w in PutsForValue(xs[i], ChildPath(key, IndexKey(i))) :: w in PutsForValue(List(xs), key)
  {
    assert xs == xs[..i] + [xs[i]] + xs[i + 1..];
    ElementPutsAppend(xs[..i] + [xs[i]], xs[i + 1..], 0, key);
    ElementPutsAppend(xs[..i], [xs[i]], 0, key);
    SingletonElementPuts(xs[i], |xs[..i]|, key);
  }

  /** A put in a log where no key is put twice survives in the map. */
  lemma MemberPutStored(m: map<string, string>, ws: seq<Put>, w: Put)
    requires DistinctKeys(ws) && w in ws
    ensures w.0 in ApplyPuts(m, ws) && ApplyPuts(m, ws)[w.0] == w.1
  {
    var i :| 0 <= i < |ws| && ws[i] == w;
    DistinctPutsStored(m, ws, i);
  }

  /** Every scalar leaf of a configuration, at any depth, is stored under its
      full property name with its leaf text, once no name is put twice. */
  lemma LeafProjected(config: seq<Entry>, pos: seq<Step>)
    requires ValidPos(Map(config), pos) && NodeAt(Map(config), pos).IsScalar()
    requires DistinctKeys(PutsForEntries(config, ""))
    ensures var leaf := NodeAt(Map(config), pos);
            var name := NameAt(Map(config), "", pos);
            name in Flatten(config) && Flatten(config)[name] == LeafText(leaf)
  {
    var leaf := NodeAt(Map(config), pos);
    var name := NameAt(Map(config), "", pos);
    assert (name, LeafText(leaf)) in PutsForEntries(config, "") by {
      SubtreePutsIncluded(Map(config), "", pos);
      ScalarPuts(leaf, name);
      assert (name, LeafText(leaf)) in PutsForValue(leaf, name);
    }
    MemberPutStored(map[], PutsForEntries(config, ""), (name, LeafText(leaf)));
  }

  /** Every list of a configuration, at any depth, is stored under its full
      property name as the comma join of its elements, once no name is put
      twice. */
  lemma ListNodeProjected(config: seq<Entry>, pos: seq<Step>)
    requires ValidPos(Map(config), pos) && NodeAt(Map(config), pos).List?
    requires DistinctKeys(PutsForEntries(config, ""))
    ensures var list := NodeAt(Map(config), pos);
            var name := NameAt(Map(config), "", pos);
            name in Flatten(config) && Flatten(config)[name] == CommaDelimited(ElementTexts(list.items))
  {
    var list := NodeAt(Map(config), pos);
    var name := NameAt(Map(config), "", pos);
    assert (name, CommaDelimited(ElementTexts(list.items))) in PutsForEntries(config, "") by {
      SubtreePutsIncluded(Map(config), "", pos);
      ListPutsJoinFirst(list.items, name);
      assert PutsForValue(list, name)[0] in PutsForValue(list, name);
    }
    MemberPutStored(map[], PutsForEntries(config, ""), (name, CommaDelimited(ElementTexts(list.items))));
  }
}
