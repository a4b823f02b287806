/** The three-field filter of the dashboard: a category, a severity and a country, each
    either a value or the wildcard "All", and the derived list of the attacks that pass. */
module Filters {
  import opened Types

  const WILDCARD: string := "All"

  /** The dashboard's filter state. */
  datatype FilterState = FilterState(attackType: string, severity: string, country: string)

  /** The initial state: every field is the wildcard. */
  const ALL_FILTERS: FilterState := FilterState(WILDCARD, WILDCARD, WILDCARD)

  /** The field a filter control names. */
  datatype FilterField = TypeField | SeverityField | CountryField

  /** The value a filter holds in one of its fields. */
  function Get(f: FilterState, field: FilterField): string {
    match field
    case TypeField => f.attackType
    case SeverityField => f.severity
    case CountryField => f.country
  }

  /** `handleFilterChange`: `{ ...prev, [filterType]: value }`. */
  function Update(f: FilterState, field: FilterField, value: string): (r: FilterState)
    ensures Get(r, field) == value
    ensures forall g :: g != field ==> Get(r, g) == Get(f, g)
  {
    match field
    case TypeField => f.(attackType := value)
    case SeverityField => f.(severity := value)
    case CountryField => f.(country := value)
  }

  /** Setting a field to what it already holds changes nothing, and a second update of
      the same field overrides the first. */
  lemma UpdateLaws(f: FilterState, field: FilterField, x: string, y: string)
    ensures Update(f, field, Get(f, field)) == f
    ensures Update(Update(f, field, x), field, y) == Update(f, field, y)
  {
  }

  /** One field's test: the wildcard, or equality with the attack's value. */
  predicate FieldMatch(wanted: string, actual: string) {
    wanted == WILDCARD || actual == wanted
  }

  /** The predicate of `filteredAttacks`. */
  predicate Matches(f: FilterState, a: Attack) {
    FieldMatch(f.attackType, a.attackType)
    && FieldMatch(f.severity, SeverityValue(a.severity))
    && FieldMatch(f.country, a.country)
  }

  /** A severity filter set to a member's value keeps exactly that severity: no member's
      value is the wildcard. */
  lemma SeverityFilterExact(f: FilterState, s: Severity, a: Attack)
    requires f.severity == SeverityValue(s)
    ensures Matches(f, a) <==>
      FieldMatch(f.attackType, a.attackType) && a.severity == s && FieldMatch(f.country, a.country)
  {
    SeverityValueRoundTrip(a.severity, s);
  }

  /** `attacks.filter(...)`: the attacks that pass, in their original order. */
  function Apply(s: seq<Attack>, f: FilterState): (r: seq<Attack>)
    ensures |r| <= |s|
    ensures forall a :: a in r <==> a in s && Matches(f, a)
  {
    if |s| == 0 then []
    else
      var rest := Apply(s[1..], f);
      assert forall a :: a in s <==> a == s[0] || a in s[1..];
      if Matches(f, s[0]) then [s[0]] + rest else rest
  }

  /** Filtering distributes over concatenation, so the order of the feed is kept. */
  lemma {:induction false} ApplyConcat(s: seq<Attack>, t: seq<Attack>, f: FilterState)
    ensures Apply(s + t, f) == Apply(s, f) + Apply(t, f)
  {
    if |s| == 0 {
      assert s + t == t;
    } else {
      assert (s + t)[1..] == s[1..] + t;
      ApplyConcat(s[1..], t, f);
    }
  }

  /** The all-wildcard filter keeps every attack. */
  lemma {:induction false} ApplyAllIsIdentity(s: seq<Attack>)
    ensures Apply(s, ALL_FILTERS) == s
  {
    if |s| > 0 {
      ApplyAllIsIdentity(s[1..]);
    }
  }

  /** Filtering twice by the same filter is filtering once. */
  lemma {:induction false} ApplyIdempotent(s: seq<Attack>, f: FilterState)
    ensures Apply(Apply(s, f), f) == Apply(s, f)
  {
    if |s| > 0 {
      ApplyIdempotent(s[1..], f);
      if Matches(f, s[0]) {
        assert ([s[0]] + Apply(s[1..], f))[1..] == Apply(s[1..], f);
      }
    }
  }

  /** Filtering a duplicate-free feed gives a duplicate-free list. */
  lemma {:induction false} ApplyKeepsUniqueIds(s: seq<Attack>, f: FilterState)
    requires UniqueIds(s)
    ensures UniqueIds(Apply(s, f))
  {
    if |s| > 0 {
      var rest := Apply(s[1..], f);
      assert UniqueIds(s[1..]) by {
        forall i, j | 0 <= i < j < |s[1..]| ensures s[1..][i].id != s[1..][j].id {
          assert s[1..][i] == s[i + 1] && s[1..][j] == s[j + 1];
        }
      }
      ApplyKeepsUniqueIds(s[1..], f);
      if Matches(f, s[0]) {
        var r := [s[0]] + rest;
        forall i, j | 0 <= i < j < |r| ensures r[i].id != r[j].id {
          if i == 0 {
            assert r[j] in s[1..];
            var k :| 0 <= k < |s[1..]| && s[1..][k] == r[j];
            assert s[k + 1] == r[j];
          } else {
            assert r[i] == rest[i - 1] && r[j] == rest[j - 1];
          }
        }
      }
    }
  }
}
