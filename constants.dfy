/** The dashboard's static tables: the attack categories, the severity levels, the origin
    countries with their map coordinates, and the feed cap. */
module Constants {
  import opened Types

  /** The attack categories offered by the generator and the simulator form. */
  const ATTACK_TYPES: seq<string> := [
    "SQL Injection",
    "DDoS",
    "Cross-Site Scripting (XSS)",
    "Malware Infection",
    "Phishing Attempt",
    "Brute Force Attack",
    "Man-in-the-Middle",
    "Zero-Day Exploit"
  ]

  const SEVERITY_LEVELS: seq<Severity> := [Low, Medium, High, Critical]

  /** An origin country and where it is drawn on the map. */
  datatype Country = Country(name: string, coords: Coords)

  const COUNTRIES: seq<Country> := [
    Country("USA", Coords(25.0, 40.0)),
    Country("China", Coords(75.0, 40.0)),
    Country("Russia", Coords(60.0, 30.0)),
    Country("Brazil", Coords(35.0, 70.0)),
    Country("Germany", Coords(50.0, 35.0)),
    Country("India", Coords(68.0, 50.0)),
    Country("Nigeria", Coords(48.0, 55.0)),
    Country("North Korea", Coords(80.0, 38.0)),
    Country("UK", Coords(45.0, 33.0)),
    Country("Iran", Coords(62.0, 42.0))
  ]

  /** The most records the live feed keeps. */
  const MAX_ATTACKS_IN_FEED: nat := 15

  lemma FeedCap()
    ensures MAX_ATTACKS_IN_FEED == 15
  {
  }

  lemma AttackTypesTable()
    ensures |ATTACK_TYPES| == 8 && ATTACK_TYPES[0] == "SQL Injection"
    ensures forall i, j :: 0 <= i < j < |ATTACK_TYPES| ==> ATTACK_TYPES[i] != ATTACK_TYPES[j]
  {
  }

  /** The severity levels are exactly the members of the enumeration, each once, in
      declaration order. */
  lemma SeverityLevelsTable()
    ensures SEVERITY_LEVELS == SeverityMembers()
    ensures forall s: Severity :: s in SEVERITY_LEVELS
    ensures forall i, j :: 0 <= i < j < |SEVERITY_LEVELS| ==> SEVERITY_LEVELS[i] != SEVERITY_LEVELS[j]
  {
  }

  lemma CountriesTable()
    ensures |COUNTRIES| == 10
    ensures forall i, j :: 0 <= i < j < |COUNTRIES| ==> COUNTRIES[i].name != COUNTRIES[j].name
    ensures forall i :: 0 <= i < |COUNTRIES| ==>
      0.0 <= COUNTRIES[i].coords.x <= 100.0 && 0.0 <= COUNTRIES[i].coords.y <= 100.0
    ensures COUNTRIES[0] == Country("USA", Coords(25.0, 40.0))
    ensures COUNTRIES[8] == Country("UK", Coords(45.0, 33.0))
  {
  }
}
