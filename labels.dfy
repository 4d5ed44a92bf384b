/**
 * The `switch (labelStyle)` that turns an option's prefix into its label
 * (src/index.tsx:167-182), and the `labelStyle = 'original'` default of the
 * component's props (src/index.tsx:125).
 */
module Labels {
  import opened Wrappers
  import opened GmtOffset

  /** The three styles the switch recognises, and every other string. */
  datatype LabelStyle = Original | AltName | Abbrev | Unrecognised

  /** The style a `labelStyle` prop selects; an absent prop means `'original'`. */
  function StyleOf(labelStyle: Option<string>): (style: LabelStyle)
    ensures style == Original <==> labelStyle == None || labelStyle == Some("original")
    ensures style == AltName <==> labelStyle == Some("altName")
    ensures style == Abbrev <==> labelStyle == Some("abbrev")
  {
    match labelStyle
    case None => Original
    case Some(s) =>
      if s == "original" then Original
      else if s == "altName" then AltName
      else if s == "abbrev" then Abbrev
      else Unrecognised
  }

  /**
   * The text between the prefix and the abbreviation in the `abbrev` case: the
   * space, line break and indentation that the multi-line template literal
   * holds.  Nothing below depends on its content beyond its being non-empty.
   */
  const AbbrevSeparator: string := " \n            "

  function Parenthesised(s: string): string {
    "(" + s + ")"
  }

  /** The label of an option whose prefix, abbreviation and alternative name are given. */
  function Label(style: LabelStyle, prefix: string, abbrev: string, altName: string): (text: string)
    ensures |prefix| <= |text| && text[..|prefix|] == prefix
    ensures text == prefix <==> style == Original || style == Unrecognised
  {
    match style
    case Original => prefix
    case AltName => prefix + " " + (if '/' !in altName then Parenthesised(altName) else "")
    case Abbrev => prefix + AbbrevSeparator + (if |abbrev| < 5 then Parenthesised(abbrev) else "")
    case Unrecognised => prefix
  }

  /**
   * `altName` style: the alternative name is shown in parentheses after a space
   * exactly when it holds no `/`; otherwise only the space follows the prefix.
   */
  lemma AltNameLabel(prefix: string, abbrev: string, altName: string)
    ensures Label(AltName, prefix, abbrev, altName) == prefix + " " + Parenthesised(altName) <==> '/' !in altName
    ensures Label(AltName, prefix, abbrev, altName) == prefix + " " <==> '/' in altName
  {
    if '/' in altName {
      assert |prefix + " "| < |prefix + " " + Parenthesised(altName)|;
    }
  }

  /**
   * `abbrev` style: the abbreviation is shown in parentheses after the separator
   * exactly when it is shorter than five characters.
   */
  lemma AbbrevLabel(prefix: string, abbrev: string, altName: string)
    ensures Label(Abbrev, prefix, abbrev, altName) == prefix + AbbrevSeparator + Parenthesised(abbrev) <==> |abbrev| < 5
    ensures Label(Abbrev, prefix, abbrev, altName) == prefix + AbbrevSeparator <==> |abbrev| >= 5
  {
    if |abbrev| >= 5 {
      assert |prefix + AbbrevSeparator| < |prefix + AbbrevSeparator + Parenthesised(abbrev)|;
    }
  }

  /**
   * Every style starts the label with the same GMT tag, a space and the catalog
   * label: whatever the style, the prefix is identical.
   */
  lemma PrefixSharedByAllStyles(s1: LabelStyle, s2: LabelStyle, minutes: int, catalogLabel: string, abbrev: string, altName: string)
    ensures var n := |Prefix(minutes, catalogLabel)|;
      var l1 := Label(s1, Prefix(minutes, catalogLabel), abbrev, altName);
      var l2 := Label(s2, Prefix(minutes, catalogLabel), abbrev, altName);
      n <= |l1| && n <= |l2| && l1[..n] == l2[..n] == GmtTag(minutes) + " " + catalogLabel
  {
  }

  /** No label is empty: each starts with `(GMT`. */
  lemma LabelStartsWithGmt(style: LabelStyle, minutes: int, catalogLabel: string, abbrev: string, altName: string)
    ensures var text := Label(style, Prefix(minutes, catalogLabel), abbrev, altName);
      4 <= |text| && text[..4] == "(GMT"
  {
    var text := Label(style, Prefix(minutes, catalogLabel), abbrev, altName);
    var p := Prefix(minutes, catalogLabel);
    assert p[..4] == "(GMT";
    assert text[..|p|] == p;
    assert text[..4] == p[..4];
  }
}
