/**
 * Entry collection: the `reduce` over `Object.entries(timezones)` that turns
 * each (identifier, catalog label) pair into an Entry (src/index.tsx:132-155).
 *
 * The date library is not modelled.  What it reports for an identifier
 * (`spacetime.now().goto(id)`, `timezone().current.offset`, `isDST()` and the
 * `display(id)` name table) is given by an oracle: a total function from the
 * identifier to its ZoneFacts.
 */
module Entries {
  import opened Wrappers

  /** An abbreviation and a long name, as the name table gives one variant. */
  datatype Names = Names(abbrev: string, name: string)

  /**
   * What the library reports for one identifier: the current UTC offset in
   * minutes (None for `undefined`), whether daylight saving is in effect, and
   * the daylight and standard variants of the name table (None where the
   * table has no such entry, or no entry at all).
   */
  datatype ZoneFacts = ZoneFacts(offset: Option<int>, isDst: bool, daylight: Option<Names>, standard: Option<Names>)

  type Oracle = string -> ZoneFacts

  /** A timezone catalog, as `Object.entries` lists it: (identifier, label) pairs in order. */
  type Catalog = seq<(string, string)>

  /** The source's `Entry` record. */
  datatype Entry = Entry(name: string, catalogLabel: string, offset: Option<int>, abbrev: string, altName: string)

  /**
   * The name table has both a daylight and a standard variant: the test
   * `tzDisplay && tzDisplay.daylight && tzDisplay.standard`, where a present
   * object is truthy and a missing one is not.
   */
  predicate HasVariants(facts: ZoneFacts): (r: bool)
    ensures r <==> facts.daylight.Some? && facts.standard.Some?
  {
    facts.daylight.Some? && facts.standard.Some?
  }

  /**
   * The names shown for an identifier: the daylight variant when the zone is in
   * DST and the standard one otherwise, provided the table has both; the
   * identifier twice when it lacks either.
   */
  function ShownNames(id: string, facts: ZoneFacts): (names: Names)
    ensures !HasVariants(facts) ==> names == Names(id, id)
    ensures HasVariants(facts) && facts.isDst ==> names == facts.daylight.value
    ensures HasVariants(facts) && !facts.isDst ==> names == facts.standard.value
  {
    if HasVariants(facts) then
      (if facts.isDst then facts.daylight.value else facts.standard.value)
    else
      Names(id, id)
  }

  /**
   * The body of the `reduce` callback before `obj.push`: the entry keeps the
   * pair's identifier and label and the library's offset for the identifier,
   * and carries the names shown for it.
   */
  function MakeEntry(zone: (string, string), oracle: Oracle): (e: Entry)
    ensures e.name == zone.0 && e.catalogLabel == zone.1 && e.offset == oracle(zone.0).offset
    ensures Names(e.abbrev, e.altName) == ShownNames(zone.0, oracle(zone.0))
  {
    var facts := oracle(zone.0);
    var names := ShownNames(zone.0, facts);
    Entry(zone.0, zone.1, facts.offset, names.abbrev, names.name)
  }

  /** The array `reduce` returns: one entry per catalog pair, in catalog order. */
  function CollectEntries(timezones: Catalog, oracle: Oracle): (entries: seq<Entry>)
    ensures |entries| == |timezones|
    ensures forall k :: 0 <= k < |timezones| ==> entries[k] == MakeEntry(timezones[k], oracle)
  {
    if timezones == [] then []
    else CollectEntries(timezones[..|timezones| - 1], oracle) + [MakeEntry(timezones[|timezones| - 1], oracle)]
  }

  /** The identifiers of the catalog, as a set. */
  function Keys(timezones: Catalog): set<string> {
    set k | 0 <= k < |timezones| :: timezones[k].0
  }

  /** Object keys are unique. */
  predicate DistinctKeys(timezones: Catalog) {
    forall i, j :: 0 <= i < j < |timezones| ==> timezones[i].0 != timezones[j].0
  }

  /** The identifiers, in catalog order, whose offset the library reports. */
  function DefinedIds(timezones: Catalog, oracle: Oracle): (ids: seq<string>)
    ensures forall id :: id in ids <==> id in Keys(timezones) && oracle(id).offset.Some?
  {
    if timezones == [] then []
    else
      var init := timezones[..|timezones| - 1];
      var id := timezones[|timezones| - 1].0;
      assert Keys(timezones) == Keys(init) + {id} by {
        assert forall k :: 0 <= k < |init| ==> init[k] == timezones[k];
      }
      DefinedIds(init, oracle) + (if oracle(id).offset.Some? then [id] else [])
  }

  /** With unique keys, each identifier with a defined offset is listed once and no other is listed. */
  lemma {:induction false} DefinedIdsCount(timezones: Catalog, oracle: Oracle, id: string)
    requires DistinctKeys(timezones)
    ensures multiset(DefinedIds(timezones, oracle))[id]
         == if id in Keys(timezones) && oracle(id).offset.Some? then 1 else 0
  {
    if timezones != [] {
      var init := timezones[..|timezones| - 1];
      var last := timezones[|timezones| - 1].0;
      assert forall k :: 0 <= k < |init| ==> init[k] == timezones[k];
      assert Keys(timezones) == Keys(init) + {last};
      assert last !in Keys(init);
      DefinedIdsCount(init, oracle, id);
    }
  }
}
