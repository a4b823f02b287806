/** The live feed list: the style table keyed by severity value with its gray fallback,
    and one row per attack with the selected row's background. */
module LiveAttackFeed {
  import opened Types
  import opened Text
  import WorldMap

  /** The shield icons of the feed. */
  datatype Icon = ShieldAlert | ShieldHalf | ShieldCheck | ShieldQuestion

  /** A row's look: text colour classes, icon, and the two background classes. */
  datatype Style = Style(color: string, icon: Icon, bgColor: string, selectedBgColor: string)

  /** A row style in one Tailwind colour family and shade: `text-F-S border-F-S/50`, the
      background `bg-F-S/10 hover:bg-F-S/20`, and the selected background `bg-F-S/30`. */
  function FamilyStyle(family: string, shade: string, icon: Icon): (st: Style)
    ensures st.bgColor != st.selectedBgColor
  {
    var tone := family + "-" + shade;
    var st := Style("text-" + tone + " border-" + tone + "/50", icon,
      "bg-" + tone + "/10 hover:bg-" + tone + "/20", "bg-" + tone + "/30");
    assert |st.bgColor| != |st.selectedBgColor|;
    st
  }

  /** The entries of `severityConfig`, one per severity. */
  function Entry(s: Severity): Style {
    match s
    case Critical => FamilyStyle("red", "500", ShieldAlert)
    case High => FamilyStyle("orange", "400", ShieldAlert)
    case Medium => FamilyStyle("yellow", "400", ShieldHalf)
    case Low => FamilyStyle("blue", "400", ShieldCheck)
  }

  /** The properties every plain object inherits from `Object.prototype`, including the
      legacy accessors of Annex B of ECMA-262. Each holds a function or an object, so
      reading one gives a truthy value that is not a style. */
  const PROTOTYPE_KEYS: seq<string> := [
    "constructor", "hasOwnProperty", "isPrototypeOf", "propertyIsEnumerable",
    "toLocaleString", "toString", "valueOf", "__proto__",
    "__defineGetter__", "__defineSetter__", "__lookupGetter__", "__lookupSetter__"
  ]

  /** What reading a key of the `severityConfig` object gives: one of its own entries, a
      property inherited from `Object.prototype`, or `undefined`. */
  datatype Lookup = Own(style: Style) | Inherited | Absent

  /** No severity value is the name of an inherited property: the values begin with a
      capital letter, the inherited names with a lower-case letter or an underscore. */
  lemma SeverityValuesNotInherited(s: Severity)
    ensures SeverityValue(s) !in PROTOTYPE_KEYS
  {
    var v := SeverityValue(s);
    assert 'A' <= v[0] <= 'Z';
    forall k | 0 <= k < |PROTOTYPE_KEYS| ensures PROTOTYPE_KEYS[k][0] == '_' || 'a' <= PROTOTYPE_KEYS[k][0] <= 'z' {
    }
  }

  /** `severityConfig[key]`: an own entry exactly for the four severity values, an
      inherited property exactly for the prototype's names, and `undefined` otherwise. */
  function SeverityConfig(key: string): (r: Lookup)
    ensures r.Own? <==> exists s: Severity :: SeverityValue(s) == key
    ensures forall s: Severity :: SeverityValue(s) == key ==> r == Own(Entry(s))
    ensures r.Inherited? <==> key in PROTOTYPE_KEYS
    ensures r.Absent? <==> (forall s: Severity :: SeverityValue(s) != key) && key !in PROTOTYPE_KEYS
  {
    match SeverityFromValue(key)
    case Some(s) =>
      assert forall t: Severity :: SeverityValue(t) == key ==> t == s by {
        forall t: Severity | SeverityValue(t) == key ensures t == s {
          SeverityValueRoundTrip(t, s);
        }
      }
      SeverityValuesNotInherited(s);
      Own(Entry(s))
    case None =>
      if key in PROTOTYPE_KEYS then Inherited else Absent
  }

  /** The style used when the lookup finds nothing. */
  const FALLBACK: Style := Style("text-gray-400", ShieldQuestion, "bg-gray-400/10", "bg-gray-400/30")

  /** `severityConfig[key] || fallback`: an own entry is used as it is, `undefined` gives
      the gray fallback, and an inherited property, being truthy, is used in place of a
      style, so the row gets no colour classes and no icon (None). */
  function ConfigFor(key: string): (r: Option<Style>)
    ensures r.None? <==> key in PROTOTYPE_KEYS
    ensures forall s: Severity :: SeverityValue(s) == key ==> r == Some(Entry(s))
    ensures (forall s: Severity :: SeverityValue(s) != key) && key !in PROTOTYPE_KEYS ==>
      r == Some(FALLBACK)
  {
    match SeverityConfig(key)
    case Own(st) => Some(st)
    case Inherited => None
    case Absent => Some(FALLBACK)
  }

  /** The style of a row for a record of severity s. */
  function StyleFor(s: Severity): (st: Style)
    ensures st == Entry(s)
    ensures st != FALLBACK && st.icon != ShieldQuestion
    ensures st.bgColor != st.selectedBgColor
  {
    SeverityValuesNotInherited(s);
    match ConfigFor(SeverityValue(s))
    case Some(st) => st
    case None => FALLBACK
  }

  /** A key that is neither a severity value nor an inherited name gets the gray style
      with the question icon. */
  lemma FallbackForUnknownKey(key: string)
    requires forall s: Severity :: SeverityValue(s) != key
    requires key !in PROTOTYPE_KEYS
    ensures ConfigFor(key) == Some(FALLBACK)
    ensures FALLBACK.icon == ShieldQuestion && FALLBACK.color == "text-gray-400"
  {
  }

  /** A key naming an inherited property, such as "toString", misses the fallback: the
      row gets neither the gray style nor any other. */
  lemma InheritedKeyMissesFallback()
    ensures SeverityConfig("toString") == Inherited
    ensures ConfigFor("toString") == None
  {
    assert PROTOTYPE_KEYS[5] == "toString";
  }

  /** Critical and High show the alert shield, Medium the half shield, Low the check. */
  lemma Icons()
    ensures StyleFor(Critical).icon == ShieldAlert && StyleFor(High).icon == ShieldAlert
    ensures StyleFor(Medium).icon == ShieldHalf && StyleFor(Low).icon == ShieldCheck
  {
  }

  /** Each row's colour classes are of the colour family the map uses for the same
      severity: critical red, high orange, medium yellow, low blue. */
  lemma SameColourFamilyAsMap(s: Severity)
    ensures Contains(StyleFor(s).color, WorldMap.SeverityColor(s))
  {
    match s
    case Critical => FamilyInColor("red", "500", ShieldAlert);
    case High => FamilyInColor("orange", "400", ShieldAlert);
    case Medium => FamilyInColor("yellow", "400", ShieldHalf);
    case Low => FamilyInColor("blue", "400", ShieldCheck);
  }

  /** The text colour of a family style names the family. */
  lemma FamilyInColor(family: string, shade: string, icon: Icon)
    ensures Contains(FamilyStyle(family, shade, icon).color, family)
  {
    var tone := family + "-" + shade;
    assert FamilyStyle(family, shade, icon).color == "text-" + family + ("-" + shade + " border-" + tone + "/50");
    ContainsInfix("text-", family, "-" + shade + " border-" + tone + "/50");
  }

  /** One list item: its key, the attack its click hands over, its style and its
      background class. */
  datatype Row = Row(key: string, attack: Attack, style: Style, background: string)

  /** The list item of one attack: keyed by its id, handing over the attack, with the
      selected background exactly when its id is the selected id. */
  function RowFor(a: Attack, selectedId: Option<string>): (row: Row)
    ensures row.key == a.id && row.attack == a && row.style == StyleFor(a.severity)
    ensures row.background == row.style.selectedBgColor <==> selectedId == Some(a.id)
    ensures selectedId != Some(a.id) ==> row.background == row.style.bgColor
  {
    var st := StyleFor(a.severity);
    Row(a.id, a, st, if selectedId == Some(a.id) then st.selectedBgColor else st.bgColor)
  }

  /** One row per attack, in order. */
  function Rows(attacks: seq<Attack>, selectedId: Option<string>): (r: seq<Row>)
    ensures |r| == |attacks|
    ensures forall i :: 0 <= i < |r| ==> r[i] == RowFor(attacks[i], selectedId)
  {
    seq(|attacks|, i requires 0 <= i < |attacks| => RowFor(attacks[i], selectedId))
  }

  /** In a duplicate-free list at most one row is highlighted. */
  lemma OneHighlightedRow(attacks: seq<Attack>, selectedId: Option<string>, i: nat, j: nat)
    requires UniqueIds(attacks) && i < j < |attacks|
    ensures var r := Rows(attacks, selectedId);
      !(r[i].background == r[i].style.selectedBgColor && r[j].background == r[j].style.selectedBgColor)
  {
  }
}
