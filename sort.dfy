/**
 * The `.sort((a, b) => a.offset - b.offset)` step (src/index.tsx:156-158).
 *
 * The engine's sort is not part of the source; it is modelled by an insertion
 * sort, specified by what any correct sort gives: the result is ordered by
 * offset and is a permutation of the input.  When every offset is defined,
 * the comparator is consistent and this is the order the source promises.
 * When one offset is undefined the comparator yields NaN, which the engine
 * reads as +0: that entry compares equal to every other, the comparator is
 * inconsistent, and the order of ALL the entries is implementation-defined.
 * Putting undefined entries last is then this model's own choice; what the
 * options are, as opposed to their order, is proved for any permutation
 * (`Options.OptionsOfAnyOrder`).
 */
module OffsetSort {
  import opened Wrappers
  import opened Entries

  /**
   * `a` may precede `b`: with both offsets defined, exactly when the
   * comparator `a.offset - b.offset` is not positive; an undefined offset
   * comes after every defined one, by this model's choice.
   */
  predicate OffsetLe(a: Entry, b: Entry): (r: bool)
    ensures a.offset.Some? && b.offset.Some? ==> (r <==> a.offset.value - b.offset.value <= 0)
    ensures b.offset.None? ==> r
    ensures a.offset.None? && b.offset.Some? ==> !r
  {
    if a.offset.Some? && b.offset.Some? then a.offset.value <= b.offset.value else b.offset.None?
  }

  /** `OffsetLe` is a total preorder, so a sort by it is well defined up to ties. */
  lemma OffsetLeTotalPreorder(a: Entry, b: Entry, c: Entry)
    ensures OffsetLe(a, b) || OffsetLe(b, a)
    ensures OffsetLe(a, b) && OffsetLe(b, c) ==> OffsetLe(a, c)
  {
  }

  predicate SortedByOffset(s: seq<Entry>) {
    forall i, j :: 0 <= i < j < |s| ==> OffsetLe(s[i], s[j])
  }

  /** Puts `e` before the first element it may precede. */
  function Insert(e: Entry, s: seq<Entry>): (r: seq<Entry>)
    ensures multiset(r) == multiset(s) + multiset{e}
  {
    if s == [] || OffsetLe(e, s[0]) then
      [e] + s
    else
      assert s == [s[0]] + s[1..];
      [s[0]] + Insert(e, s[1..])
  }

  lemma {:induction false} InsertSorted(e: Entry, s: seq<Entry>)
    requires SortedByOffset(s)
    ensures SortedByOffset(Insert(e, s))
  {
    if s != [] && !OffsetLe(e, s[0]) {
      var rest := Insert(e, s[1..]);
      InsertSorted(e, s[1..]);
      forall j | 0 <= j < |rest| ensures OffsetLe(s[0], rest[j]) {
        assert rest[j] in multiset(rest);
        if rest[j] != e {
          var k :| 0 <= k < |s[1..]| && s[1..][k] == rest[j];
          assert s[k + 1] == rest[j];
        }
      }
    }
  }

  function SortByOffset(s: seq<Entry>): (r: seq<Entry>)
    ensures SortedByOffset(r)
    ensures multiset(r) == multiset(s)
  {
    if s == [] then []
    else
      assert s == [s[0]] + s[1..];
      var rest := SortByOffset(s[1..]);
      InsertSorted(s[0], rest);
      Insert(s[0], rest)
  }
}
