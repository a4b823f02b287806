/** The two record builders of the dashboard: the generator's random attack and the
    simulator's manual one. Randomness and the clock are parameters: each `Math.random()`
    draw is a real in [0, 1), `Date.now()` a natural number of milliseconds, and the text of
    the id's random part and the ISO timestamp are given strings. */
module Builders {
  import opened Types
  import opened Constants
  import opened Text

  /** `Math.floor(r * n)`: a uniform index into a table of n entries. */
  function Pick(r: real, n: nat): (i: nat)
    requires 0.0 <= r < 1.0 && n > 0
    ensures i < n
    ensures i as real <= r * n as real < (i + 1) as real
  {
    assert 0.0 <= r * n as real < n as real by {
      assert r * n as real <= 1.0 * n as real;
      assert r * n as real != n as real;
    }
    (r * n as real).Floor
  }

  /** Every index can be drawn: the draw i/n picks index i. */
  lemma PickReachesEvery(i: nat, n: nat)
    requires i < n
    ensures 0.0 <= i as real / n as real < 1.0
    ensures Pick(i as real / n as real, n) == i
  {
    assert i as real / n as real * n as real == i as real;
  }

  predicate IsDraw(r: real) {
    0.0 <= r < 1.0
  }

  /** Four draws, one per octet. */
  predicate IpDraws(draws: seq<real>) {
    |draws| == 4 && forall i :: 0 <= i < 4 ==> 0.0 <= draws[i] < 1.0
  }

  /** The four octets of `generateRandomIp`. */
  function Octets(draws: seq<real>): (o: seq<nat>)
    requires IpDraws(draws)
    ensures |o| == 4
    ensures forall i :: 0 <= i < 4 ==> o[i] == Pick(draws[i], 255) && o[i] <= 254
  {
    [Pick(draws[0], 255), Pick(draws[1], 255), Pick(draws[2], 255), Pick(draws[3], 255)]
  }

  /** The decimal texts of a sequence of numbers. */
  function Decimals(o: seq<nat>): (t: seq<string>)
    ensures |t| == |o|
    ensures forall i :: 0 <= i < |o| ==> t[i] == NatToString(o[i])
  {
    if |o| == 0 then [] else [NatToString(o[0])] + Decimals(o[1..])
  }

  /** The octets written in dotted-quad notation. */
  function FormatIp(o: seq<nat>): string
    requires |o| == 4
  {
    Join(Decimals(o), '.')
  }

  lemma DigitsHaveNoDot(s: string)
    requires AllDigits(s)
    ensures '.' !in s
  {
  }

  /** A dotted quad splits back into its four decimal octets. */
  lemma IpRoundTrip(o: seq<nat>)
    requires |o| == 4
    ensures Split(FormatIp(o), '.') == Decimals(o)
    ensures forall i :: 0 <= i < 4 ==> DecimalValue(Split(FormatIp(o), '.')[i]) == o[i]
  {
    var parts := Decimals(o);
    forall i | 0 <= i < |parts| ensures '.' !in parts[i] {
      DigitsHaveNoDot(parts[i]);
    }
    SplitJoin(parts, '.');
    forall i | 0 <= i < 4 ensures DecimalValue(parts[i]) == o[i] {
      DecimalRoundTrip(o[i]);
    }
  }

  /** `generateRandomIp`: four dot-separated decimal octets, each drawn from 0 to 254. */
  function RandomIp(draws: seq<real>): (ip: string)
    requires IpDraws(draws)
    ensures |Split(ip, '.')| == 4
    ensures forall i :: 0 <= i < 4 ==>
      AllDigits(Split(ip, '.')[i]) && DecimalValue(Split(ip, '.')[i]) == Pick(draws[i], 255) <= 254
    ensures forall i :: 0 <= i < 4 ==> Split(ip, '.')[i] == NatToString(Pick(draws[i], 255))
  {
    var o := Octets(draws);
    IpRoundTrip(o);
    FormatIp(o)
  }

  /** The highest octet is reachable, and nothing above it. */
  lemma OctetRange(r: real)
    requires IsDraw(r)
    ensures Pick(r, 255) <= 254
    ensures Pick(254.0 / 255.0, 255) == 254
  {
    PickReachesEvery(254, 255);
  }

  /** The clock at the moment a record is built. */
  datatype Moment = Moment(nowMs: nat, idRandom: string, iso: string)

  /** `evt-${Date.now()}-${Math.random()}` */
  function EventId(m: Moment): (id: string)
    ensures StartsWith(id, "evt-")
  {
    "evt-" + NatToString(m.nowMs) + "-" + m.idRandom
  }

  /** Two moments whose id parts differ give different ids. */
  lemma EventIdInjective(m: Moment, n: Moment)
    requires m.nowMs != n.nowMs || m.idRandom != n.idRandom
    ensures EventId(m) != EventId(n)
  {
    var s, t := NatToString(m.nowMs), NatToString(n.nowMs);
    if EventId(m) == EventId(n) {
      var x, y := EventId(m)[4..], EventId(n)[4..];
      assert x == s + "-" + m.idRandom && y == t + "-" + n.idRandom;
      DigitsPrefixUnique(s, m.idRandom, t, n.idRandom);
      DecimalRoundTrip(m.nowMs);
      DecimalRoundTrip(n.nowMs);
    }
  }

  /** A digit string followed by a dash is determined by the text it starts: the digits
      are the text before the first dash, the rest is the text after it. */
  lemma DigitsPrefixUnique(s: string, u: string, t: string, v: string)
    requires AllDigits(s) && AllDigits(t)
    requires s + "-" + u == t + "-" + v
    ensures s == t && u == v
  {
    assert '-' !in s && '-' !in t;
    var l := s + "-" + u;
    assert l == s + ("-" + u) && l == t + ("-" + v);
    SplitAfterSeparatorFree(s, "-" + u, '-');
    SplitAfterSeparatorFree(t, "-" + v, '-');
    assert Split("-" + u, '-')[0] == "" && Split("-" + v, '-')[0] == "";
    assert s + "" == s && t + "" == t;
    assert Split(l, '-')[0] == s && Split(l, '-')[0] == t;
    assert u == l[|s| + 1..] && v == l[|t| + 1..];
  }

  /** The random draws of `createAttack` that pick from a table or make the address; the
      draw for the id's random part is the `idRandom` text of the moment. */
  datatype Draws = Draws(country: real, severity: real, ip: seq<real>, attackType: real)

  predicate ValidDraws(d: Draws) {
    IsDraw(d.country) && IsDraw(d.severity) && IsDraw(d.attackType)
    && IpDraws(d.ip)
  }

  /** `createAttack`: a country, a severity and a category drawn from their tables, a
      random address, and the id and timestamp of the moment. */
  function RandomAttack(d: Draws, m: Moment): (a: Attack)
    requires ValidDraws(d)
    ensures Country(a.country, a.coords) in COUNTRIES
    ensures a.attackType in ATTACK_TYPES
    ensures a.id == EventId(m) && a.timestamp == m.iso
    ensures a.ip == RandomIp(d.ip)
    ensures a.country == COUNTRIES[Pick(d.country, |COUNTRIES|)].name
    ensures a.coords == COUNTRIES[Pick(d.country, |COUNTRIES|)].coords
    ensures a.severity == SeverityMembers()[Pick(d.severity, 4)]
    ensures a.attackType == ATTACK_TYPES[Pick(d.attackType, |ATTACK_TYPES|)]
  {
    var country := COUNTRIES[Pick(d.country, |COUNTRIES|)];
    var severities := SeverityMembers();
    Attack(
      EventId(m),
      m.iso,
      RandomIp(d.ip),
      ATTACK_TYPES[Pick(d.attackType, |ATTACK_TYPES|)],
      severities[Pick(d.severity, |severities|)],
      country.name,
      country.coords)
  }

  /** Every country, severity and category can come out of the generator. */
  lemma RandomAttackCovers(i: nat, j: nat, k: nat, ip: seq<real>, m: Moment)
    requires i < |COUNTRIES| && j < 4 && k < |ATTACK_TYPES|
    requires IpDraws(ip)
    ensures var d := Draws(i as real / |COUNTRIES| as real, j as real / 4 as real, ip,
                           k as real / |ATTACK_TYPES| as real);
      ValidDraws(d)
      && RandomAttack(d, m).country == COUNTRIES[i].name
      && RandomAttack(d, m).coords == COUNTRIES[i].coords
      && RandomAttack(d, m).severity == SeverityMembers()[j]
      && RandomAttack(d, m).attackType == ATTACK_TYPES[k]
  {
    PickReachesEvery(i, |COUNTRIES|);
    PickReachesEvery(j, 4);
    PickReachesEvery(k, |ATTACK_TYPES|);
  }

  /** `table.find(c => c.name === name)`: the first entry with that name. */
  function FindCountry(table: seq<Country>, name: string): (r: Option<Country>)
    ensures r.Some? ==> r.value in table && r.value.name == name
    ensures r.None? <==> forall i :: 0 <= i < |table| ==> table[i].name != name
    ensures forall i :: 0 <= i < |table| && table[i].name == name ==>
      r.Some? && (r.value == table[i] || exists j :: 0 <= j < i && table[j] == r.value)
  {
    if |table| == 0 then None
    else if table[0].name == name then Some(table[0])
    else
      var r := FindCountry(table[1..], name);
      assert forall i :: 1 <= i < |table| ==> table[i] == table[1..][i - 1];
      r
  }

  /** In a table with distinct names, the entry found is the one with that name. */
  lemma FindCountryUnique(table: seq<Country>, name: string, i: nat)
    requires forall p, q :: 0 <= p < q < |table| ==> table[p].name != table[q].name
    requires i < |table| && table[i].name == name
    ensures FindCountry(table, name) == Some(table[i])
  {
  }

  /** What the simulator form hands over. */
  datatype TriggerDetails = TriggerDetails(attackType: string, severity: Severity, country: string)

  /** `handleTriggerAttack`: the category and severity are copied as given; the origin is
      the country table's entry with the given name, or its first entry (USA) when there
      is none. */
  function TriggerAttack(details: TriggerDetails, ip: seq<real>, m: Moment): (a: Attack)
    requires IpDraws(ip)
    ensures a.attackType == details.attackType && a.severity == details.severity
    ensures forall i :: 0 <= i < |COUNTRIES| && COUNTRIES[i].name == details.country ==>
      a.country == details.country && a.coords == COUNTRIES[i].coords
    ensures (forall i :: 0 <= i < |COUNTRIES| ==> COUNTRIES[i].name != details.country) ==>
      a.country == "USA" && a.coords == Coords(25.0, 40.0)
    ensures a.id == EventId(m) && a.timestamp == m.iso && a.ip == RandomIp(ip)
  {
    var found := FindCountry(COUNTRIES, details.country);
    var country := if found.Some? then found.value else COUNTRIES[0];
    assert forall i :: 0 <= i < |COUNTRIES| && COUNTRIES[i].name == details.country ==>
      country == COUNTRIES[i] by {
      forall i | 0 <= i < |COUNTRIES| && COUNTRIES[i].name == details.country
        ensures country == COUNTRIES[i]
      {
        CountriesTable();
        FindCountryUnique(COUNTRIES, details.country, i);
      }
    }
    Attack(EventId(m), m.iso, RandomIp(ip), details.attackType, details.severity,
      country.name, country.coords)
  }

  /** A UK trigger lands at the UK's coordinates. */
  lemma TriggerUk(t: string, s: Severity, ip: seq<real>, m: Moment)
    requires IpDraws(ip)
    ensures TriggerAttack(TriggerDetails(t, s, "UK"), ip, m).coords == Coords(45.0, 33.0)
  {
    CountriesTable();
  }

  /** An instance of the fallback: "Atlantis" is not in the table, so it lands at the
      USA's coordinates. */
  lemma TriggerAtlantis(t: string, s: Severity, ip: seq<real>, m: Moment)
    requires IpDraws(ip)
    ensures TriggerAttack(TriggerDetails(t, s, "Atlantis"), ip, m).country == "USA"
    ensures TriggerAttack(TriggerDetails(t, s, "Atlantis"), ip, m).coords == Coords(25.0, 40.0)
  {
    assert forall i :: 0 <= i < |COUNTRIES| ==> COUNTRIES[i].name != "Atlantis" by {
      forall i | 0 <= i < |COUNTRIES| ensures COUNTRIES[i].name != "Atlantis" {
        assert COUNTRIES[i].name[0] != 'A';
      }
    }
  }
}
