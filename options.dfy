/**
 * The body of the `getOptions` memo (src/index.tsx:129-191): collect one Entry
 * per catalog pair, sort the entries by offset, then push one option per entry
 * whose offset is defined.
 *
 * `BuildOptions` is the specification; `GetOptions` is the step-by-step
 * builder, proved equal to it, and the lemmas state what the options are.
 */
module Options {
  import opened Wrappers
  import opened GmtOffset
  import opened Entries
  import opened OffsetSort
  import opened Labels

  /** The source's `TimezoneSelectOption` (its `label` is `labelText` here); `abbrev` and `altName` are optional there. */
  datatype SelectOption = SelectOption(value: string, labelText: string, abbrev: Option<string>, altName: Option<string>)

  /**
   * The option the `map` callback pushes for an entry whose offset is defined:
   * the entry's identifier, names and a label that starts with the GMT prefix
   * of its offset and its catalog label.
   */
  function OptionOf(e: Entry, style: LabelStyle): (o: SelectOption)
    requires e.offset.Some?
    ensures o.value == e.name && o.abbrev == Some(e.abbrev) && o.altName == Some(e.altName)
    ensures var p := Prefix(e.offset.value, e.catalogLabel); |p| <= |o.labelText| && o.labelText[..|p|] == p
  {
    SelectOption(e.name, Label(style, Prefix(e.offset.value, e.catalogLabel), e.abbrev, e.altName),
                 Some(e.abbrev), Some(e.altName))
  }

  /**
   * The entries whose offset is defined, in order: each defined entry as often
   * as `entries` holds it, and nothing else.
   */
  function Defined(entries: seq<Entry>): (r: seq<Entry>)
    ensures forall k :: 0 <= k < |r| ==> r[k].offset.Some? && r[k] in entries
    ensures forall e :: e in entries && e.offset.Some? ==> e in r
  {
    if entries == [] then []
    else
      var last := entries[|entries| - 1];
      Defined(entries[..|entries| - 1]) + (if last.offset.Some? then [last] else [])
  }

  /** The options pushed while mapping over `entries`. */
  function MapOptions(entries: seq<Entry>, style: LabelStyle): (r: seq<SelectOption>)
    ensures |r| == |Defined(entries)|
    ensures forall k :: 0 <= k < |r| ==> r[k] == OptionOf(Defined(entries)[k], style)
  {
    if entries == [] then []
    else
      var last := entries[|entries| - 1];
      MapOptions(entries[..|entries| - 1], style) + (if last.offset.Some? then [OptionOf(last, style)] else [])
  }

  /** Mapping one more entry pushes its option when its offset is defined, and nothing otherwise. */
  lemma MapOptionsStep(entries: seq<Entry>, j: nat, style: LabelStyle)
    requires j < |entries|
    ensures MapOptions(entries[..j + 1], style)
         == MapOptions(entries[..j], style) + (if entries[j].offset.Some? then [OptionOf(entries[j], style)] else [])
  {
    assert entries[..j + 1][..j] == entries[..j];
  }

  /**
   * What `getOptions` evaluates to.  The option values are the catalog
   * identifiers whose offset is defined, each as often as the catalog lists
   * it: every such identifier is the value of some option, and no other string
   * is.
   */
  function BuildOptions(timezones: Catalog, oracle: Oracle, style: LabelStyle): (r: seq<SelectOption>)
    ensures multiset(Values(r)) == multiset(DefinedIds(timezones, oracle))
  {
    var entries := CollectEntries(timezones, oracle);
    OptionsOfAnyOrder(timezones, oracle, style, SortByOffset(entries));
    MapOptions(SortByOffset(entries), style)
  }

  /** The `value` of each option, in order. */
  function Values(options: seq<SelectOption>): (r: seq<string>)
    ensures |r| == |options| && forall k :: 0 <= k < |r| ==> r[k] == options[k].value
  {
    seq(|options|, k requires 0 <= k < |options| => options[k].value)
  }

  /** The `reduce` over the catalog: a loop that pushes one Entry per pair. */
  method ReduceEntries(timezones: Catalog, oracle: Oracle) returns (entries: seq<Entry>)
    ensures entries == CollectEntries(timezones, oracle)
  {
    entries := [];
    var i := 0;
    while i < |timezones|
      invariant 0 <= i <= |timezones|
      invariant entries == CollectEntries(timezones[..i], oracle)
    {
      var id := timezones[i].0;
      var facts := oracle(id);
      var abbrev, altName := id, id;
      if facts.daylight.Some? && facts.standard.Some? {
        abbrev := if facts.isDst then facts.daylight.value.abbrev else facts.standard.value.abbrev;
        altName := if facts.isDst then facts.daylight.value.name else facts.standard.value.name;
      }
      var entry := Entry(id, timezones[i].1, facts.offset, abbrev, altName);
      assert entries + [entry] == CollectEntries(timezones[..i + 1], oracle) by {
        assert entry == MakeEntry(timezones[i], oracle);
        assert timezones[..i + 1][..i] == timezones[..i];
      }
      entries := entries + [entry];
      i := i + 1;
    }
    assert timezones[..i] == timezones;
  }

  /**
   * The loop over the sorted entries: one option pushed per entry whose offset
   * is defined, its label chosen by a `match` on the style.
   */
  method PushOptions(sorted: seq<Entry>, style: LabelStyle) returns (options: seq<SelectOption>)
    ensures options == MapOptions(sorted, style)
  {
    options := [];
    var j := 0;
    while j < |sorted|
      invariant 0 <= j <= |sorted|
      invariant options == MapOptions(sorted[..j], style)
    {
      var tz := sorted[j];
      MapOptionsStep(sorted, j, style);
      if tz.offset.Some? {
        var prefix := Prefix(tz.offset.value, tz.catalogLabel);
        var text := "";
        match style {
          case Original =>
            text := prefix;
          case AltName =>
            text := prefix + " " + (if '/' !in tz.altName then "(" + tz.altName + ")" else "");
          case Abbrev =>
            text := prefix + AbbrevSeparator + (if |tz.abbrev| < 5 then "(" + tz.abbrev + ")" else "");
          case Unrecognised =>
            text := prefix;
        }
        var option := SelectOption(tz.name, text, Some(tz.abbrev), Some(tz.altName));
        assert option == OptionOf(tz, style) by {
          assert text == Label(style, prefix, tz.abbrev, tz.altName);
        }
        options := options + [option];
      } else {
        assert options + [] == options;
      }
      j := j + 1;
    }
    assert sorted[..j] == sorted;
  }

  /** The builder as the source writes it: the `reduce`, the sort and the push loop. */
  method GetOptions(timezones: Catalog, oracle: Oracle, style: LabelStyle) returns (options: seq<SelectOption>)
    ensures options == BuildOptions(timezones, oracle, style)
  {
    var entries := ReduceEntries(timezones, oracle);
    var sorted := SortByOffset(entries);
    options := PushOptions(sorted, style);
  }

  // ---------------------------------------------------------------------------
  // Sortedness

  lemma {:induction false} DefinedSorted(entries: seq<Entry>)
    requires SortedByOffset(entries)
    ensures SortedByOffset(Defined(entries))
  {
    if entries != [] {
      var init := entries[..|entries| - 1];
      assert SortedByOffset(init);
      DefinedSorted(init);
      var d := Defined(init);
      forall k | 0 <= k < |d| ensures OffsetLe(d[k], entries[|entries| - 1]) {
        var m :| 0 <= m < |init| && init[m] == d[k];
        assert entries[m] == d[k];
      }
    }
  }

  /**
   * When every zone of the catalog has a defined offset, the options are
   * exactly the options of a sequence of entries whose offsets do not
   * decrease.  With an undefined offset the comparator yields NaN, the engine's
   * order is implementation-defined, and no order is claimed.
   */
  lemma BuildOptionsSorted(timezones: Catalog, oracle: Oracle, style: LabelStyle)
    requires forall k :: 0 <= k < |timezones| ==> oracle(timezones[k].0).offset.Some?
    ensures var options := BuildOptions(timezones, oracle, style);
      var src := Defined(SortByOffset(CollectEntries(timezones, oracle)));
      |options| == |src|
      && (forall k :: 0 <= k < |src| ==> src[k].offset.Some? && options[k] == OptionOf(src[k], style))
      && (forall i, j :: 0 <= i < j < |src| ==> src[i].offset.value <= src[j].offset.value)
  {
    var src := Defined(SortByOffset(CollectEntries(timezones, oracle)));
    DefinedSorted(SortByOffset(CollectEntries(timezones, oracle)));
    forall i, j | 0 <= i < j < |src| ensures src[i].offset.value <= src[j].offset.value {
      assert OffsetLe(src[i], src[j]);
    }
  }

  // ---------------------------------------------------------------------------
  // One option per identifier whose offset is defined

  /** Keeping the defined entries commutes with concatenation, so their order is kept. */
  lemma {:induction false} DefinedAppend(a: seq<Entry>, b: seq<Entry>)
    ensures Defined(a + b) == Defined(a) + Defined(b)
  {
    if b != [] {
      var bInit := b[..|b| - 1];
      assert (a + b)[..|a + b| - 1] == a + bInit;
      DefinedAppend(a, bInit);
    } else {
      assert a + b == a;
    }
  }

  /** Each defined entry is kept as often as `entries` holds it, and an undefined one never. */
  lemma {:induction false} DefinedCount(entries: seq<Entry>, e: Entry)
    ensures multiset(Defined(entries))[e] == if e.offset.Some? then multiset(entries)[e] else 0
  {
    if entries != [] {
      var init, last := entries[..|entries| - 1], entries[|entries| - 1];
      DefinedCount(init, e);
      assert entries == init + [last];
      assert multiset(entries) == multiset(init) + multiset{last};
    }
  }

  /** The names of the entries whose offset is defined, in order. */
  function DefinedNames(entries: seq<Entry>): (r: seq<string>)
    ensures |r| == |Defined(entries)|
  {
    var d := Defined(entries);
    seq(|d|, k requires 0 <= k < |d| => d[k].name)
  }

  lemma ValuesOfMapOptions(entries: seq<Entry>, style: LabelStyle)
    ensures Values(MapOptions(entries, style)) == DefinedNames(entries)
  {
  }

  lemma DefinedNamesAppend(a: seq<Entry>, b: seq<Entry>)
    ensures DefinedNames(a + b) == DefinedNames(a) + DefinedNames(b)
  {
    DefinedAppend(a, b);
  }

  /** Taking the first entry of `a` out of both sides, wherever `b` holds it. */
  lemma RemoveFirst(a: seq<Entry>, b: seq<Entry>, i: nat)
    requires multiset(a) == multiset(b) && a != [] && i < |b| && b[i] == a[0]
    ensures multiset(a[1..]) == multiset(b[..i] + b[i + 1..])
  {
    assert a == [a[0]] + a[1..];
    assert b == b[..i] + [b[i]] + b[i + 1..];
    assert multiset(a[1..]) == multiset(a) - multiset{a[0]};
    assert multiset(b[..i] + b[i + 1..]) == multiset(b) - multiset{a[0]};
  }

  lemma DefinedNamesAround(b: seq<Entry>, i: nat)
    requires i < |b|
    ensures DefinedNames(b) == DefinedNames(b[..i]) + DefinedNames([b[i]]) + DefinedNames(b[i + 1..])
  {
    assert b == b[..i] + [b[i]] + b[i + 1..];
    DefinedNamesAppend(b[..i] + [b[i]], b[i + 1..]);
    DefinedNamesAppend(b[..i], [b[i]]);
  }

  /** Reordering the entries only reorders their defined names. */
  lemma {:induction false} DefinedNamesPermutation(a: seq<Entry>, b: seq<Entry>)
    requires multiset(a) == multiset(b)
    ensures multiset(DefinedNames(a)) == multiset(DefinedNames(b))
    decreases |a|
  {
    if a == [] {
      assert |b| == |multiset(b)| == 0;
    } else {
      assert a[0] in multiset(b);
      var i :| 0 <= i < |b| && b[i] == a[0];
      RemoveFirst(a, b, i);
      DefinedNamesPermutation(a[1..], b[..i] + b[i + 1..]);
      assert a == [a[0]] + a[1..];
      DefinedNamesAppend([a[0]], a[1..]);
      DefinedNamesAround(b, i);
      DefinedNamesAppend(b[..i], b[i + 1..]);
    }
  }

  lemma {:induction false} DefinedNamesOfCatalog(timezones: Catalog, oracle: Oracle)
    ensures DefinedNames(CollectEntries(timezones, oracle)) == DefinedIds(timezones, oracle)
  {
    if timezones != [] {
      var init := timezones[..|timezones| - 1];
      DefinedNamesOfCatalog(init, oracle);
      var es := CollectEntries(timezones, oracle);
      var last := es[|es| - 1];
      assert es == CollectEntries(init, oracle) + [last] by {
        assert es[..|es| - 1] == CollectEntries(init, oracle);
      }
      DefinedNamesAppend(CollectEntries(init, oracle), [last]);
      assert DefinedNames([last]) == if last.offset.Some? then [last.name] else [];
    }
  }

  /**
   * Whatever order the engine's sort leaves the entries in, the option values
   * are the catalog identifiers whose offset is defined, each as often as the
   * catalog lists it.
   */
  lemma OptionsOfAnyOrder(timezones: Catalog, oracle: Oracle, style: LabelStyle, order: seq<Entry>)
    requires multiset(order) == multiset(CollectEntries(timezones, oracle))
    ensures multiset(Values(MapOptions(order, style))) == multiset(DefinedIds(timezones, oracle))
  {
    ValuesOfMapOptions(order, style);
    DefinedNamesPermutation(order, CollectEntries(timezones, oracle));
    DefinedNamesOfCatalog(timezones, oracle);
  }

  /**
   * With the unique keys of a JavaScript object, each identifier with a defined
   * offset is the value of exactly one option, and every other string of none.
   */
  lemma ExactlyOneOptionPerDefinedId(timezones: Catalog, oracle: Oracle, style: LabelStyle, id: string)
    requires DistinctKeys(timezones)
    ensures multiset(Values(BuildOptions(timezones, oracle, style)))[id]
         == if id in Keys(timezones) && oracle(id).offset.Some? then 1 else 0
  {
    DefinedIdsCount(timezones, oracle, id);
  }

  // ---------------------------------------------------------------------------
  // Where each option's fields come from

  /**
   * `o` is the option of the catalog pair `zone`: the pair's offset is defined,
   * `o`'s value is the identifier, its label the style's label over the GMT
   * prefix of that offset and the catalog label, and its abbrev and altName the
   * daylight names when the zone is in DST, the standard names otherwise, and
   * the identifier itself when the name table lacks either variant.
   */
  predicate BuiltFrom(o: SelectOption, zone: (string, string), oracle: Oracle, style: LabelStyle) {
    var facts := oracle(zone.0);
    var names := ShownNames(zone.0, facts);
    && facts.offset.Some?
    && o.value == zone.0
    && o.labelText == Label(style, Prefix(facts.offset.value, zone.1), names.abbrev, names.name)
    && o.abbrev == Some(names.abbrev)
    && o.altName == Some(names.name)
  }

  /**
   * Each option is built from one catalog pair whose offset is defined: its
   * value is the identifier, its label the style's label over the GMT prefix of
   * that offset and the pair's catalog label, and its abbrev and altName the
   * daylight names when the zone is in DST, the standard names otherwise, and
   * the identifier itself when the name table lacks either variant.
   */
  lemma OptionOrigin(timezones: Catalog, oracle: Oracle, style: LabelStyle, o: SelectOption)
    requires o in BuildOptions(timezones, oracle, style)
    ensures exists k :: 0 <= k < |timezones| && BuiltFrom(o, timezones[k], oracle, style)
  {
    var sorted := SortByOffset(CollectEntries(timezones, oracle));
    OptionFromEntry(sorted, style, o);
    var e :| e in sorted && e.offset.Some? && o == OptionOf(e, style);
    assert e in multiset(sorted);
    EntryFromPair(timezones, oracle, e);
    var k :| 0 <= k < |timezones| && e == MakeEntry(timezones[k], oracle);
    OptionOfEntry(timezones[k], oracle, style);
  }

  /** Each collected entry, counted as a multiset, is the entry made from one of the catalog pairs. */
  lemma EntryFromPair(timezones: Catalog, oracle: Oracle, e: Entry)
    requires e in multiset(CollectEntries(timezones, oracle))
    ensures exists k :: 0 <= k < |timezones| && e == MakeEntry(timezones[k], oracle)
  {
    var entries := CollectEntries(timezones, oracle);
    var k :| 0 <= k < |entries| && entries[k] == e;
  }

  /** Each mapped option is the option of one of the entries, whose offset is defined. */
  lemma OptionFromEntry(entries: seq<Entry>, style: LabelStyle, o: SelectOption)
    requires o in MapOptions(entries, style)
    ensures exists e :: e in entries && e.offset.Some? && o == OptionOf(e, style)
  {
    var options := MapOptions(entries, style);
    var i :| 0 <= i < |options| && options[i] == o;
    assert Defined(entries)[i] in entries;
  }

  /** The option of the entry made from a pair is built from that pair. */
  lemma OptionOfEntry(zone: (string, string), oracle: Oracle, style: LabelStyle)
    requires oracle(zone.0).offset.Some?
    ensures BuiltFrom(OptionOf(MakeEntry(zone, oracle), style), zone, oracle, style)
  {
  }

  /** No option has an empty label: every label starts with `(GMT`. */
  lemma OptionLabelsNonEmpty(timezones: Catalog, oracle: Oracle, style: LabelStyle)
    ensures forall o :: o in BuildOptions(timezones, oracle, style) ==> o.labelText != ""
  {
    forall o | o in BuildOptions(timezones, oracle, style) ensures o.labelText != "" {
      var options := BuildOptions(timezones, oracle, style);
      var i :| 0 <= i < |options| && options[i] == o;
      var e := Defined(SortByOffset(CollectEntries(timezones, oracle)))[i];
      LabelStartsWithGmt(style, e.offset.value, e.catalogLabel, e.abbrev, e.altName);
    }
  }
}
