/** The threat map: the projection of the (filtered) feed onto at most twenty points, the
    decisions that style each marker, the marker click, and the tooltip position. */
module WorldMap {
  import opened Types

  /** The most points the map draws. */
  const MAX_POINTS: nat := 20

  /** One marker's data, copied from its attack. */
  datatype Point = Point(id: string, x: real, y: real, severity: Severity, attackType: string, ip: string)

  function ToPoint(a: Attack): (p: Point)
    ensures p.id == a.id && p.x == a.coords.x && p.y == a.coords.y
    ensures p.severity == a.severity && p.attackType == a.attackType && p.ip == a.ip
  {
    Point(a.id, a.coords.x, a.coords.y, a.severity, a.attackType, a.ip)
  }

  /** Every attack as a point, in order. */
  function ToPoints(attacks: seq<Attack>): (r: seq<Point>)
    ensures |r| == |attacks|
    ensures forall i :: 0 <= i < |r| ==> r[i] == ToPoint(attacks[i])
  {
    if |attacks| == 0 then [] else [ToPoint(attacks[0])] + ToPoints(attacks[1..])
  }

  /** `attacks.map(...).slice(0, 20)`: the first twenty attacks at most, in order, each
      as its point. */
  function Points(attacks: seq<Attack>): (r: seq<Point>)
    ensures |r| == if |attacks| <= MAX_POINTS then |attacks| else MAX_POINTS
    ensures forall i :: 0 <= i < |r| ==> r[i] == ToPoint(attacks[i])
  {
    var all := ToPoints(attacks);
    if |all| <= MAX_POINTS then all else all[..MAX_POINTS]
  }

  /** `attacks[0]?.id`: the newest attack's id, absent for an empty feed. */
  function LatestId(attacks: seq<Attack>): (r: Option<string>)
    ensures r.None? <==> |attacks| == 0
    ensures r.Some? ==> r.value == attacks[0].id
  {
    if |attacks| == 0 then None else Some(attacks[0].id)
  }

  /** No attack before position i has the given id. */
  predicate FirstWithId(attacks: seq<Attack>, id: string, i: nat) {
    forall j :: 0 <= j < i && j < |attacks| ==> attacks[j].id != id
  }

  /** `attacks.find(a => a.id === id)`: the first attack with that id. */
  function FindById(attacks: seq<Attack>, id: string): (r: Option<Attack>)
    ensures r.None? <==> forall i :: 0 <= i < |attacks| ==> attacks[i].id != id
    ensures r.Some? ==> r.value.id == id
    ensures r.Some? ==>
      exists i :: 0 <= i < |attacks| && attacks[i] == r.value && FirstWithId(attacks, id, i)
  {
    if |attacks| == 0 then None
    else if attacks[0].id == id then Some(attacks[0])
    else
      var r := FindById(attacks[1..], id);
      assert forall i :: 1 <= i < |attacks| ==> attacks[i] == attacks[1..][i - 1];
      if r.Some? then
        var i :| 0 <= i < |attacks[1..]| && attacks[1..][i] == r.value && FirstWithId(attacks[1..], id, i);
        assert attacks[i + 1] == r.value;
        assert FirstWithId(attacks, id, i + 1);
        r
      else r
  }

  /** The marker's click handler: the point's attack, found by id, or nothing. */
  function Click(attacks: seq<Attack>, p: Point): Option<Attack> {
    FindById(attacks, p.id)
  }

  /** A click on any drawn marker selects an attack with the marker's id; in a
      duplicate-free feed it is exactly the attack the marker was drawn for. */
  lemma ClickSelectsItsAttack(attacks: seq<Attack>, i: nat)
    requires i < |Points(attacks)|
    ensures Click(attacks, Points(attacks)[i]).Some?
    ensures Click(attacks, Points(attacks)[i]).value.id == attacks[i].id
    ensures UniqueIds(attacks) ==> Click(attacks, Points(attacks)[i]) == Some(attacks[i])
  {
    var r := Click(attacks, Points(attacks)[i]);
    assert attacks[i].id == Points(attacks)[i].id;
    if UniqueIds(attacks) {
      var k :| 0 <= k < |attacks| && attacks[k] == r.value && FirstWithId(attacks, attacks[i].id, k);
      assert k == i;
    }
  }

  /** `severityColor` */
  function SeverityColor(s: Severity): (c: string)
    ensures c != "white"
  {
    match s
    case Critical => "red"
    case High => "orange"
    case Medium => "yellow"
    case Low => "blue"
  }

  /** The four severities have four different colours. */
  lemma SeverityColorsDistinct(s: Severity, t: Severity)
    requires s != t
    ensures SeverityColor(s) != SeverityColor(t)
  {
  }

  /** The drawing decisions for one marker. */
  datatype Marker = Marker(
    id: string, radius: int, fill: string, stroke: string, strokeWidth: real, pulse: bool)

  /** A marker's look, given whether it is the latest and whether it is selected:
      selection wins over latest for the radius, only a selected marker has a white
      outline, and only a latest one that is not selected pulses. */
  function MarkerFor(p: Point, latest: bool, selected: bool): (m: Marker)
    ensures m.id == p.id && m.fill == SeverityColor(p.severity)
    ensures selected ==> m.radius == 6
    ensures !selected && latest ==> m.radius == 5
    ensures !selected && !latest ==> m.radius == 3
    ensures m.stroke == "white" <==> selected
    ensures !selected ==> m.stroke == SeverityColor(p.severity)
    ensures m.strokeWidth == 2.0 <==> selected || latest
    ensures !(selected || latest) ==> m.strokeWidth == 0.5
    ensures m.pulse <==> latest && !selected
  {
    Marker(
      p.id,
      if selected then 6 else if latest then 5 else 3,
      SeverityColor(p.severity),
      if selected then "white" else SeverityColor(p.severity),
      if selected then 2.0 else if latest then 2.0 else 0.5,
      latest && !selected)
  }

  /** The markers of the map, one per point, in point order. */
  function Markers(attacks: seq<Attack>, selectedId: Option<string>): (r: seq<Marker>)
    ensures |r| == |Points(attacks)|
    ensures forall i :: 0 <= i < |r| ==>
      r[i] == MarkerFor(Points(attacks)[i], LatestId(attacks) == Some(Points(attacks)[i].id),
        selectedId == Some(Points(attacks)[i].id))
  {
    var ps := Points(attacks);
    seq(|ps|, i requires 0 <= i < |ps| =>
      MarkerFor(ps[i], LatestId(attacks) == Some(ps[i].id), selectedId == Some(ps[i].id)))
  }

  /** In a duplicate-free non-empty feed the first marker is the only latest one, and at
      most one marker is selected; an empty feed has no latest marker. */
  lemma LatestAndSelectedUnique(attacks: seq<Attack>, selectedId: Option<string>)
    requires UniqueIds(attacks)
    ensures forall i :: 0 <= i < |Points(attacks)| ==>
      (LatestId(attacks) == Some(Points(attacks)[i].id) <==> i == 0)
    ensures forall i, j :: 0 <= i < j < |Points(attacks)| ==>
      !(selectedId == Some(Points(attacks)[i].id) && selectedId == Some(Points(attacks)[j].id))
  {
  }

  /** The pulse goes to the newest marker unless it is the selected one. */
  lemma PulseOnlyOnNewest(attacks: seq<Attack>, selectedId: Option<string>, i: nat)
    requires UniqueIds(attacks) && i < |Markers(attacks, selectedId)|
    ensures Markers(attacks, selectedId)[i].pulse <==> i == 0 && selectedId != Some(attacks[0].id)
  {
    LatestAndSelectedUnique(attacks, selectedId);
  }

  /** The tooltip's translation: the point's percentage coordinates scaled to the
      1000 by 500 view box, ten units to the right of the marker. */
  function TooltipAt(p: Point): (t: (real, real))
    ensures t.0 == 10.0 * p.x + 10.0 && t.1 == 5.0 * p.y
  {
    (p.x / 100.0 * 1000.0 + 10.0, p.y / 100.0 * 500.0)
  }
}
