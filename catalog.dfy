/**
 * The built-in catalog `i18nTimezones` (src/index.tsx:11-86), which the
 * component uses when no `timezones` prop is given, and worked examples of the
 * builder and of `normalizeTz` on catalogs drawn from it.  The oracles below
 * stand for what the date library reports at some instant.
 */
module DefaultCatalog {
  import opened Wrappers
  import opened GmtOffset
  import opened Entries
  import opened OffsetSort
  import opened Labels
  import opened Options
  import opened Normalize

  /** The built-in catalog, in the order `Object.entries` lists it. */
  const I18nTimezones: Catalog := [
    ("Pacific/Midway", "Midway Island, Samoa"),
    ("Pacific/Honolulu", "Hawaii"),
    ("America/Juneau", "Alaska"),
    ("America/Boise", "Mountain Time"),
    ("America/Dawson", "Dawson, Yukon"),
    ("America/Chihuahua", "Chihuahua, La Paz, Mazatlan"),
    ("America/Phoenix", "Arizona"),
    ("America/Chicago", "Central Time"),
    ("America/Regina", "Saskatchewan"),
    ("America/Mexico_City", "Guadalajara, Mexico City, Monterrey"),
    ("America/Belize", "Central America"),
    ("America/Detroit", "Eastern Time"),
    ("America/Bogota", "Bogota, Lima, Quito"),
    ("America/Caracas", "Caracas, La Paz"),
    ("America/Santiago", "Santiago"),
    ("America/St_Johns", "Newfoundland and Labrador"),
    ("America/Sao_Paulo", "Brasilia"),
    ("America/Tijuana", "Tijuana, Pacific Time"),
    ("America/Argentina/Buenos_Aires", "Buenos Aires, Georgetown"),
    ("America/Godthab", "Greenland"),
    ("Atlantic/Azores", "Azores"),
    ("Atlantic/Cape_Verde", "Cape Verde Islands"),
    ("GMT", "Dublin, Edinburgh, Lisbon, London"),
    ("Africa/Casablanca", "Casablanca, Monrovia"),
    ("Atlantic/Canary", "Canary Islands"),
    ("Europe/Belgrade", "Belgrade, Bratislava, Budapest, Ljubljana, Prague"),
    ("Europe/Sarajevo", "Sarajevo, Skopje, Warsaw, Zagreb"),
    ("Europe/Brussels", "Brussels, Copenhagen, Madrid, Paris"),
    ("Europe/Amsterdam", "Amsterdam, Berlin, Bern, Rome, Stockholm, Vienna"),
    ("Africa/Algiers", "West Central Africa"),
    ("Europe/Bucharest", "Bucharest"),
    ("Africa/Cairo", "Cairo"),
    ("Europe/Helsinki", "Helsinki, Kiev, Riga, Sofia, Tallinn, Vilnius"),
    ("Europe/Athens", "Athens, Istanbul, Minsk"),
    ("Asia/Jerusalem", "Jerusalem"),
    ("Africa/Harare", "Harare, Pretoria"),
    ("Europe/Moscow", "Moscow, St. Petersburg, Volgograd"),
    ("Asia/Kuwait", "Kuwait, Riyadh"),
    ("Africa/Nairobi", "Nairobi"),
    ("Asia/Baghdad", "Baghdad"),
    ("Asia/Tehran", "Tehran"),
    ("Asia/Dubai", "Abu Dhabi, Muscat"),
    ("Asia/Baku", "Baku, Tbilisi, Yerevan"),
    ("Asia/Kabul", "Kabul"),
    ("Asia/Yekaterinburg", "Ekaterinburg"),
    ("Asia/Karachi", "Islamabad, Karachi, Tashkent"),
    ("Asia/Kolkata", "Chennai, Kolkata, Mumbai, New Delhi"),
    ("Asia/Kathmandu", "Kathmandu"),
    ("Asia/Dhaka", "Astana, Dhaka"),
    ("Asia/Colombo", "Sri Jayawardenepura"),
    ("Asia/Almaty", "Almaty, Novosibirsk"),
    ("Asia/Rangoon", "Yangon Rangoon"),
    ("Asia/Bangkok", "Bangkok, Hanoi, Jakarta"),
    ("Asia/Krasnoyarsk", "Krasnoyarsk"),
    ("Asia/Shanghai", "Beijing, Chongqing, Hong Kong SAR, Urumqi"),
    ("Asia/Kuala_Lumpur", "Kuala Lumpur, Singapore"),
    ("Asia/Taipei", "Taipei"),
    ("Australia/Perth", "Perth"),
    ("Asia/Irkutsk", "Irkutsk, Ulaanbaatar"),
    ("Asia/Seoul", "Seoul"),
    ("Asia/Tokyo", "Osaka, Sapporo, Tokyo"),
    ("Asia/Yakutsk", "Yakutsk"),
    ("Australia/Darwin", "Darwin"),
    ("Australia/Adelaide", "Adelaide"),
    ("Australia/Sydney", "Canberra, Melbourne, Sydney"),
    ("Australia/Brisbane", "Brisbane"),
    ("Australia/Hobart", "Hobart"),
    ("Asia/Vladivostok", "Vladivostok"),
    ("Pacific/Guam", "Guam, Port Moresby"),
    ("Asia/Magadan", "Magadan, Solomon Islands, New Caledonia"),
    ("Asia/Kamchatka", "Kamchatka, Marshall Islands"),
    ("Pacific/Fiji", "Fiji Islands"),
    ("Pacific/Auckland", "Auckland, Wellington"),
    ("Pacific/Tongatapu", "Nuku\'alofa")
  ]

  /** Seoul at UTC+9 in standard time, Kathmandu at UTC+5:45; no other zone is known. */
  function SampleOracle(id: string): ZoneFacts {
    if id == "Asia/Seoul" then
      ZoneFacts(Some(540), false, Some(Names("KDT", "Korea Daylight Time")), Some(Names("KST", "Korea Standard Time")))
    else if id == "Asia/Kathmandu" then
      ZoneFacts(Some(345), false, None, Some(Names("NPT", "Nepal Time")))
    else
      ZoneFacts(None, false, None, None)
  }

  const Seoul: (string, string) := ("Asia/Seoul", "Seoul")
  const Kathmandu: (string, string) := ("Asia/Kathmandu", "Kathmandu")
  const Olympus: (string, string) := ("Mars/Olympus", "Olympus")

  /** The built-in catalog holds 74 pairs, the last of them Nuku'alofa. */
  lemma BuiltInCatalogSize()
    ensures |I18nTimezones| == 74
    ensures I18nTimezones[73] == ("Pacific/Tongatapu", "Nuku\'alofa")
  {
  }

  /** The two known sample zones are built-in zones. */
  lemma SampleZonesAreBuiltIn()
    ensures Seoul in I18nTimezones && Kathmandu in I18nTimezones
  {
    assert I18nTimezones[59] == Seoul;
    assert I18nTimezones[47] == Kathmandu;
  }

  const SeoulEntry: Entry := Entry(Seoul.0, Seoul.1, Some(540), "KST", "Korea Standard Time")
  const OlympusEntry: Entry := Entry(Olympus.0, Olympus.1, None, Olympus.0, Olympus.0)
  const KathmanduEntry: Entry := Entry(Kathmandu.0, Kathmandu.1, Some(345), Kathmandu.0, Kathmandu.0)

  /**
   * Seoul is in standard time, so its standard names are taken; Kathmandu's
   * name table lacks a daylight variant, so its identifier stands in for both.
   */
  lemma SampleEntries()
    ensures CollectEntries([Seoul, Olympus, Kathmandu], SampleOracle) == [SeoulEntry, OlympusEntry, KathmanduEntry]
    ensures CollectEntries([Seoul, Kathmandu], SampleOracle) == [SeoulEntry, KathmanduEntry]
  {
  }

  /** With both offsets defined, Kathmandu, listed after Seoul, is sorted before it. */
  lemma SampleSorted()
    ensures SortByOffset([SeoulEntry, KathmanduEntry]) == [KathmanduEntry, SeoulEntry]
  {
  }

  const KathmanduOption: SelectOption :=
    SelectOption("Asia/Kathmandu", "(GMT+5:45) Kathmandu" + AbbrevSeparator, Some("Asia/Kathmandu"), Some("Asia/Kathmandu"))
  const SeoulOption: SelectOption :=
    SelectOption("Asia/Seoul", "(GMT+9:00) Seoul" + AbbrevSeparator + "(KST)", Some("KST"), Some("Korea Standard Time"))

  /** 345 minutes show as `+5:45`, 540 as `+9:00`. */
  lemma SampleTags()
    ensures GmtTag(345) == "(GMT+5:45)" && GmtTag(540) == "(GMT+9:00)"
  {
    GmtTagShape(345);
    GmtTagShape(540);
  }

  /**
   * The `abbrev` style: Seoul's three-letter abbreviation is shown; Kathmandu's
   * stand-in, its fourteen-character identifier, is not.
   */
  lemma SampleLabels()
    ensures OptionOf(KathmanduEntry, Abbrev) == KathmanduOption
    ensures OptionOf(SeoulEntry, Abbrev) == SeoulOption
  {
    SampleTags();
    assert Prefix(345, "Kathmandu") == "(GMT+5:45) Kathmandu";
    assert Prefix(540, "Seoul") == "(GMT+9:00) Seoul";
  }

  /** The map step skips the entry without an offset and keeps the others in their order. */
  lemma SampleMapped()
    ensures MapOptions([SeoulEntry, OlympusEntry, KathmanduEntry], Abbrev) == [SeoulOption, KathmanduOption]
  {
    SampleLabels();
    assert [SeoulEntry][..0] == [];
    assert MapOptions([SeoulEntry], Abbrev) == [SeoulOption];
    assert [SeoulEntry, OlympusEntry][..1] == [SeoulEntry];
    assert MapOptions([SeoulEntry, OlympusEntry], Abbrev) == [SeoulOption];
    assert [SeoulEntry, OlympusEntry, KathmanduEntry][..2] == [SeoulEntry, OlympusEntry];
  }

  /** Mapping the sorted entries of the two known zones. */
  lemma SampleMappedSorted()
    ensures MapOptions([KathmanduEntry, SeoulEntry], Abbrev) == [KathmanduOption, SeoulOption]
  {
    SampleLabels();
    assert [KathmanduEntry][..0] == [];
    assert MapOptions([KathmanduEntry], Abbrev) == [KathmanduOption];
    assert [KathmanduEntry, SeoulEntry][..1] == [KathmanduEntry];
  }

  /** The whole builder on a catalog listing Seoul, then Kathmandu: Kathmandu's option comes first. */
  lemma SampleOptions()
    ensures BuildOptions([Seoul, Kathmandu], SampleOracle, Abbrev) == [KathmanduOption, SeoulOption]
  {
    SampleEntries();
    SampleSorted();
    SampleMappedSorted();
  }

  /**
   * A zone the library reports no offset for gets no option, whatever order
   * the engine's sort leaves the entries in: the options of the catalog Seoul,
   * an unknown zone, Kathmandu have the two known identifiers as values.
   */
  lemma SampleUnknownSkipped(style: LabelStyle)
    ensures multiset(Values(BuildOptions([Seoul, Olympus, Kathmandu], SampleOracle, style)))
         == multiset{Seoul.0, Kathmandu.0}
  {
    var zones := [Seoul, Olympus, Kathmandu];
    assert DefinedIds([Seoul], SampleOracle) == [Seoul.0] by {
      assert [Seoul][..0] == [];
    }
    assert DefinedIds([Seoul, Olympus], SampleOracle) == [Seoul.0] by {
      assert [Seoul, Olympus][..1] == [Seoul];
    }
    assert DefinedIds(zones, SampleOracle) == [Seoul.0, Kathmandu.0] by {
      assert zones[..2] == [Seoul, Olympus];
    }
  }

  /**
   * `normalizeTz` over the sample options: an identifier resolves only by an
   * exact match, so neither a label nor a zone missing from the options finds
   * anything; a record without a label is reconciled with the option of its
   * value, and a record with a label is passed through as it is.
   */
  lemma SampleNormalized()
    ensures var options := [KathmanduOption, SeoulOption];
      && NormalizeTz(options, Identifier("Asia/Seoul")) == Some(SeoulOption)
      && NormalizeTz(options, Identifier("Seoul")) == None
      && NormalizeTz(options, Identifier("Asia/Tokyo")) == None
      && NormalizeTz(options, Record(SelectOption("Asia/Seoul", "", None, None))) == Some(SeoulOption)
      && NormalizeTz(options, Record(SelectOption("Asia/Seoul", "Seoul", None, None)))
         == Some(SelectOption("Asia/Seoul", "Seoul", None, None))
  {
    var options := [KathmanduOption, SeoulOption];
    assert options[1..] == [SeoulOption] && options[1..][1..] == [];
    assert |KathmanduOption.value| == 14 && |SeoulOption.value| == 10;
    assert Find(options, "Asia/Seoul") == Find([SeoulOption], "Asia/Seoul");
  }
}
