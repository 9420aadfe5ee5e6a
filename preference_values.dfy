/**
 * The three closed preference enums (text size, colour scheme, font) and their
 * companion lookups. Each enum entry carries the string resource id under which
 * the preference store saves it; a companion map, built with `associateBy`,
 * turns a raw stored int back into an entry, and every lookup falls back to a
 * fixed default entry when the raw int is not one of the enum's ids.
 */
module PreferenceValues {
  import opened Resources

  /**
   * Kotlin's `associateBy`: a map from `key(e)` to `e` over the entries, where a
   * later entry replaces an earlier one with the same key.
   */
  function AssociateBy<T>(entries: seq<T>, key: T -> int): (m: map<int, T>)
    ensures forall x :: x in m ==> key(m[x]) == x && m[x] in entries
    ensures forall e :: e in entries ==> key(e) in m
  {
    if entries == [] then map[]
    else
      var last := entries[|entries| - 1];
      assert entries == entries[..|entries| - 1] + [last];
      AssociateBy(entries[..|entries| - 1], key)[key(last) := last]
  }

  /** With distinct keys, `associateBy` maps each entry's key back to that very entry. */
  lemma AssociateByFinds<T>(entries: seq<T>, key: T -> int, i: int)
    requires forall j, k :: 0 <= j < k < |entries| ==> key(entries[j]) != key(entries[k])
    requires 0 <= i < |entries|
    ensures key(entries[i]) in AssociateBy(entries, key)
    ensures AssociateBy(entries, key)[key(entries[i])] == entries[i]
  {
  }

  // ---------------------------------------------------------------- text size

  datatype TextSize = Small | Medium | Large {
    /** The string resource id stored for this option. */
    function StringId(): int {
      match this
      case Small => TextSizeSmallId
      case Medium => TextSizeMediumId
      case Large => TextSizeLargeId
    }

    /** The dimension resource used for primary text at this size. */
    function PrimaryDimen(): int {
      match this
      case Small => FontSizeSmallDimen
      case Medium => FontSizeMediumDimen
      case Large => FontSizeLargeDimen
    }
  }

  const TextSizeEntries: seq<TextSize> := [Small, Medium, Large]
  const TextSizeByString: map<int, TextSize> := AssociateBy(TextSizeEntries, (t: TextSize) => t.StringId())

  /** The valid text size tokens, listed independently of the lookup map. */
  predicate IsTextSizeId(x: int) {
    x == TextSizeSmallId || x == TextSizeMediumId || x == TextSizeLargeId
  }

  /** Every text size option is found in the lookup map under its own id. */
  lemma TextSizeMapComplete()
    ensures forall t: TextSize :: t.StringId() in TextSizeByString && TextSizeByString[t.StringId()] == t
    ensures forall x :: IsTextSizeId(x) ==> x in TextSizeByString
  {
    var key := (t: TextSize) => t.StringId();
    AssociateByFinds(TextSizeEntries, key, 0);
    AssociateByFinds(TextSizeEntries, key, 1);
    AssociateByFinds(TextSizeEntries, key, 2);
  }

  /** `PreferencesTextSize.validate`: a valid id is kept, anything else becomes MEDIUM. */
  function ValidateTextSize(textSize: int): (r: int)
    ensures IsTextSizeId(r)
    ensures IsTextSizeId(textSize) ==> r == textSize
    ensures !IsTextSizeId(textSize) ==> r == TextSizeMediumId
  {
    TextSizeMapComplete();
    if textSize in TextSizeByString then TextSizeByString[textSize].StringId() else TextSizeMediumId
  }

  /** `PreferencesTextSize.getPrimaryDimen`: the matching option's dimension, else the medium one. */
  function GetPrimaryDimen(textSize: int): (d: int)
    ensures forall t: TextSize :: t.StringId() == textSize ==> d == t.PrimaryDimen()
    ensures !IsTextSizeId(textSize) ==> d == FontSizeMediumDimen
  {
    TextSizeMapComplete();
    if textSize in TextSizeByString then TextSizeByString[textSize].PrimaryDimen() else FontSizeMediumDimen
  }

  /** The dimension lookup agrees with validation: it never tells a raw id from its validated form. */
  lemma PrimaryDimenOfValidated(textSize: int)
    ensures GetPrimaryDimen(ValidateTextSize(textSize)) == GetPrimaryDimen(textSize)
  {
  }

  // ------------------------------------------------------------- colour scheme

  datatype ColorScheme = SystemDefault | LightMode | DarkMode {
    function StringId(): int {
      match this
      case SystemDefault => ColorSchemeDefaultId
      case LightMode => ColorSchemeLightId
      case DarkMode => ColorSchemeDarkId
    }
  }

  const ColorSchemeEntries: seq<ColorScheme> := [SystemDefault, LightMode, DarkMode]
  const ColorSchemeByString: map<int, ColorScheme> := AssociateBy(ColorSchemeEntries, (c: ColorScheme) => c.StringId())

  predicate IsColorSchemeId(x: int) {
    x == ColorSchemeDefaultId || x == ColorSchemeLightId || x == ColorSchemeDarkId
  }

  lemma ColorSchemeMapComplete()
    ensures forall c: ColorScheme :: c.StringId() in ColorSchemeByString && ColorSchemeByString[c.StringId()] == c
    ensures forall x :: IsColorSchemeId(x) ==> x in ColorSchemeByString
  {
    var key := (c: ColorScheme) => c.StringId();
    AssociateByFinds(ColorSchemeEntries, key, 0);
    AssociateByFinds(ColorSchemeEntries, key, 1);
    AssociateByFinds(ColorSchemeEntries, key, 2);
  }

  /** `PreferencesColorScheme.validate`: a valid id is kept, anything else becomes SYSTEM_DEFAULT. */
  function ValidateColorScheme(colorScheme: int): (r: int)
    ensures IsColorSchemeId(r)
    ensures IsColorSchemeId(colorScheme) ==> r == colorScheme
    ensures !IsColorSchemeId(colorScheme) ==> r == ColorSchemeDefaultId
  {
    ColorSchemeMapComplete();
    if colorScheme in ColorSchemeByString then ColorSchemeByString[colorScheme].StringId() else ColorSchemeDefaultId
  }

  // ---------------------------------------------------------------------- font

  datatype FontStyle = Default | Serif | Monospace | Cursive {
    function StringId(): int {
      match this
      case Default => FontStyleDefaultId
      case Serif => FontStyleSerifId
      case Monospace => FontStyleMonospaceId
      case Cursive => FontStyleCursiveId
    }

    function Family(): FontFamily {
      match this
      case Default => DefaultFamily
      case Serif => SerifFamily
      case Monospace => MonospaceFamily
      case Cursive => CursiveFamily
    }
  }

  const FontStyleEntries: seq<FontStyle> := [Default, Serif, Monospace, Cursive]
  const FontStyleByString: map<int, FontStyle> := AssociateBy(FontStyleEntries, (f: FontStyle) => f.StringId())

  predicate IsFontStyleId(x: int) {
    x == FontStyleDefaultId || x == FontStyleSerifId || x == FontStyleMonospaceId || x == FontStyleCursiveId
  }

  lemma FontStyleMapComplete()
    ensures forall f: FontStyle :: f.StringId() in FontStyleByString && FontStyleByString[f.StringId()] == f
    ensures forall x :: IsFontStyleId(x) ==> x in FontStyleByString
  {
    var key := (f: FontStyle) => f.StringId();
    assert forall j, k :: 0 <= j < k < |FontStyleEntries| ==> key(FontStyleEntries[j]) != key(FontStyleEntries[k]);
    forall i | 0 <= i < |FontStyleEntries|
      ensures FontStyleByString[key(FontStyleEntries[i])] == FontStyleEntries[i]
    {
      AssociateByFinds(FontStyleEntries, key, i);
    }
    assert FontStyleEntries[0] == Default && FontStyleEntries[1] == Serif;
    assert FontStyleEntries[2] == Monospace && FontStyleEntries[3] == Cursive;
  }

  /** `PreferencesFontFamily.validate`: a valid id is kept, anything else becomes DEFAULT. */
  function ValidateFont(fontString: int): (r: int)
    ensures IsFontStyleId(r)
    ensures IsFontStyleId(fontString) ==> r == fontString
    ensures !IsFontStyleId(fontString) ==> r == FontStyleDefaultId
  {
    FontStyleMapComplete();
    if fontString in FontStyleByString then FontStyleByString[fontString].StringId() else FontStyleDefaultId
  }

  /** `PreferencesFontFamily.getFontFamily`: the matching option's family, else the default family. */
  function GetFontFamily(fontString: int): (family: FontFamily)
    ensures forall f: FontStyle :: f.StringId() == fontString ==> family == f.Family()
    ensures !IsFontStyleId(fontString) ==> family == DefaultFamily
  {
    FontStyleMapComplete();
    if fontString in FontStyleByString then FontStyleByString[fontString].Family() else DefaultFamily
  }

  /** The family lookup agrees with validation. */
  lemma FontFamilyOfValidated(fontString: int)
    ensures GetFontFamily(ValidateFont(fontString)) == GetFontFamily(fontString)
  {
  }

  /** Validation is idempotent on all three enums. */
  lemma ValidatorsIdempotent(x: int)
    ensures ValidateTextSize(ValidateTextSize(x)) == ValidateTextSize(x)
    ensures ValidateColorScheme(ValidateColorScheme(x)) == ValidateColorScheme(x)
    ensures ValidateFont(ValidateFont(x)) == ValidateFont(x)
  {
  }
}
