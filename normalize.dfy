/**
 * `normalizeTz` (src/index.tsx:197-207): reconciles the value the caller holds
 * with the built options.  The value is either a zone identifier or an option
 * record; `undefined`, which `find` returns when nothing matches, is None.
 */
module Normalize {
  import opened Wrappers
  import opened Entries
  import opened Labels
  import opened Options

  /** The source's `ITimezone`: an identifier string or an option record. */
  datatype TzValue = Identifier(id: string) | Record(option: SelectOption)

  /** `options.find(tz => tz.value === value)`: the first option with that value. */
  function Find(options: seq<SelectOption>, value: string): (r: Option<SelectOption>)
    ensures r.None? <==> forall k :: 0 <= k < |options| ==> options[k].value != value
    ensures r.Some? ==> exists k :: 0 <= k < |options| && options[k] == r.value && options[k].value == value
                          && forall j :: 0 <= j < k ==> options[j].value != value
  {
    if options == [] then None
    else if options[0].value == value then Some(options[0])
    else
      var r := Find(options[1..], value);
      assert forall k :: 1 <= k < |options| ==> options[k] == options[1..][k - 1];
      r
  }

  /** A string is truthy in JavaScript exactly when it is non-empty. */
  predicate Truthy(s: string) {
    s != ""
  }

  /** A record with a truthy value and a falsy label, which is looked up by its value. */
  predicate LabelLess(v: TzValue): (r: bool)
    ensures r <==> v.Record? && |v.option.value| > 0 && |v.option.labelText| == 0
  {
    v.Record? && Truthy(v.option.value) && !Truthy(v.option.labelText)
  }

  /** The identifier a string or label-less record is looked up by. */
  function Key(v: TzValue): string {
    match v
    case Identifier(id) => id
    case Record(o) => o.value
  }

  /**
   * A string, or a record with a value and no label, resolves to the first
   * option whose value is its identifier, or to None when there is none; any
   * other record is returned as it is.
   */
  function NormalizeTz(options: seq<SelectOption>, value: TzValue): (r: Option<SelectOption>)
    ensures value.Identifier? || LabelLess(value) ==>
      (r.None? <==> forall k :: 0 <= k < |options| ==> options[k].value != Key(value))
    ensures value.Identifier? || LabelLess(value) ==> r.Some? ==>
      exists k :: 0 <= k < |options| && options[k] == r.value && options[k].value == Key(value)
        && forall j :: 0 <= j < k ==> options[j].value != Key(value)
    ensures value.Record? && !LabelLess(value) ==> r == Some(value.option)
  {
    match value
    case Identifier(id) => Find(options, id)
    case Record(o) =>
      if Truthy(o.value) && !Truthy(o.labelText) then Find(options, o.value) else Some(o)
  }

  /**
   * Normalising the value the first normalisation produced gives it back,
   * provided every option has a label (the built options do).
   */
  lemma {:induction false} NormalizeIdempotent(options: seq<SelectOption>, value: TzValue)
    requires forall o :: o in options ==> o.labelText != ""
    requires NormalizeTz(options, value).Some?
    ensures NormalizeTz(options, Record(NormalizeTz(options, value).value)) == NormalizeTz(options, value)
  {
    var r := NormalizeTz(options, value).value;
    if value.Identifier? || LabelLess(value) {
      var k :| 0 <= k < |options| && options[k] == r;
      assert r in options;
    }
  }

  /** Idempotence over the options the component builds, for any catalog and style. */
  lemma NormalizeBuiltIdempotent(timezones: Catalog, oracle: Oracle, style: LabelStyle, value: TzValue)
    requires NormalizeTz(BuildOptions(timezones, oracle, style), value).Some?
    ensures var options := BuildOptions(timezones, oracle, style);
      NormalizeTz(options, Record(NormalizeTz(options, value).value)) == NormalizeTz(options, value)
  {
    OptionLabelsNonEmpty(timezones, oracle, style);
    NormalizeIdempotent(BuildOptions(timezones, oracle, style), value);
  }

  /**
   * With the unique keys of a JavaScript object, an identifier resolves to an
   * option exactly when the catalog lists it and its offset is defined.
   */
  lemma IdentifierResolves(timezones: Catalog, oracle: Oracle, style: LabelStyle, id: string)
    requires DistinctKeys(timezones)
    ensures NormalizeTz(BuildOptions(timezones, oracle, style), Identifier(id)).Some?
        <==> id in Keys(timezones) && oracle(id).offset.Some?
  {
    var options := BuildOptions(timezones, oracle, style);
    ExactlyOneOptionPerDefinedId(timezones, oracle, style, id);
    if id in Keys(timezones) && oracle(id).offset.Some? {
      assert id in Values(options);
    } else {
      assert id !in Values(options);
      forall k | 0 <= k < |options| ensures options[k].value != id {
        assert Values(options)[k] == options[k].value;
      }
    }
  }
}
