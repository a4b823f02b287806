/** The record shapes of the dashboard: the severity enumeration, an attack event and
    one sample of a system metric. */
module Types {

  datatype Option<+T> = None | Some(value: T)

  /** The four severities of an attack. The source declares a string enumeration whose
      values are the members' own names. */
  datatype Severity = Low | Medium | High | Critical

  /** The string value of a severity member: its own name. */
  function SeverityValue(s: Severity): (v: string)
    ensures v != "All"
  {
    match s
    case Low => "Low"
    case Medium => "Medium"
    case High => "High"
    case Critical => "Critical"
  }

  /** The member whose string value is `v`, if there is one. */
  function SeverityFromValue(v: string): (r: Option<Severity>)
    ensures r.Some? ==> SeverityValue(r.value) == v
    ensures r.None? <==> (forall s: Severity :: SeverityValue(s) != v)
  {
    if v == "Low" then Some(Low)
    else if v == "Medium" then Some(Medium)
    else if v == "High" then Some(High)
    else if v == "Critical" then Some(Critical)
    else None
  }

  /** `Object.values(Severity)`: the members in declaration order. */
  function SeverityMembers(): (r: seq<Severity>)
    ensures |r| == 4
    ensures forall s: Severity :: s in r
    ensures forall i, j :: 0 <= i < j < |r| ==> r[i] != r[j]
  {
    var r := [Low, Medium, High, Critical];
    assert forall s: Severity :: s in r by {
      forall s: Severity ensures s in r {
        assert r[MemberIndex(s)] == s;
      }
    }
    r
  }

  /** The position of a member in declaration order. */
  function MemberIndex(s: Severity): (i: nat)
    ensures i < 4
  {
    match s
    case Low => 0
    case Medium => 1
    case High => 2
    case Critical => 3
  }

  /** A severity's value identifies the member: no two members share a value, and reading
      the value back gives the member. */
  lemma SeverityValueRoundTrip(s: Severity, t: Severity)
    ensures SeverityFromValue(SeverityValue(s)) == Some(s)
    ensures SeverityValue(s) == SeverityValue(t) ==> s == t
  {
  }

  /** A point on the map, each coordinate a percentage of the map's width or height. */
  datatype Coords = Coords(x: real, y: real)

  /** One attack event. Only the severity is an enumeration; the type and the country are
      free strings. */
  datatype Attack = Attack(
    id: string,
    timestamp: string,
    ip: string,
    attackType: string,
    severity: Severity,
    country: string,
    coords: Coords)

  /** One sample of a metric chart: its label and its value. */
  datatype SystemMetric = SystemMetric(name: string, value: real)

  /** The ids of a sequence of attacks, position by position. */
  function Ids(s: seq<Attack>): (r: seq<string>)
    ensures |r| == |s|
  {
    if |s| == 0 then [] else [s[0].id] + Ids(s[1..])
  }

  lemma {:induction false} IdsAt(s: seq<Attack>)
    ensures forall i :: 0 <= i < |s| ==> Ids(s)[i] == s[i].id
  {
    if |s| > 0 {
      IdsAt(s[1..]);
    }
  }

  lemma {:induction false} IdInIds(s: seq<Attack>, i: nat)
    requires i < |s|
    ensures s[i].id in Ids(s) && Ids(s)[i] == s[i].id
  {
    if i > 0 {
      IdInIds(s[1..], i - 1);
    }
  }

  lemma NotInIds(s: seq<Attack>, id: string)
    requires forall j :: 0 <= j < |s| ==> s[j].id != id
    ensures id !in Ids(s)
  {
    IdsAt(s);
  }

  lemma {:induction false} IdsConcat(s: seq<Attack>, t: seq<Attack>)
    ensures Ids(s + t) == Ids(s) + Ids(t)
  {
    if |s| == 0 {
      assert s + t == t;
    } else {
      assert (s + t)[1..] == s[1..] + t;
      IdsConcat(s[1..], t);
    }
  }

  /** No two attacks of `s` share an id. */
  predicate UniqueIds(s: seq<Attack>) {
    forall i, j :: 0 <= i < j < |s| ==> s[i].id != s[j].id
  }

  /** No string occurs twice in `xs`. */
  predicate Distinct(xs: seq<string>) {
    forall i, j :: 0 <= i < j < |xs| ==> xs[i] != xs[j]
  }

  lemma UniqueIdsDistinct(s: seq<Attack>)
    ensures UniqueIds(s) <==> Distinct(Ids(s))
  {
    IdsAt(s);
  }
}
