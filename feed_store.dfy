/** The live feed's store (the `attacks` state of the dashboard): the reducer that inserts a
    record, and the rehydration of the feed from browser storage. */
module FeedStore {
  import opened Types
  import opened Constants

  /** A JavaScript `Map` keyed by attack id, represented by its values in key-insertion
      order. `MapSet(m, a)` is `m.set(a.id, a)`: a key already present keeps its place (the
      ids stay as they were) and takes the new value; a new key goes to the end. */
  function MapSet(m: seq<Attack>, a: Attack): (r: seq<Attack>)
    ensures Ids(r) == if a.id in Ids(m) then Ids(m) else Ids(m) + [a.id]
    ensures a.id !in Ids(m) ==> r == m + [a]
  {
    if |m| == 0 then [a]
    else if m[0].id == a.id then [a] + m[1..]
    else
      var rest := MapSet(m[1..], a);
      assert ([m[0]] + rest)[1..] == rest;
      assert (m + [a])[1..] == m[1..] + [a];
      [m[0]] + rest
  }

  lemma DistinctAppend(xs: seq<string>, y: string)
    requires Distinct(xs) && y !in xs
    ensures Distinct(xs + [y])
  {
  }

  /** `Array.from(new Map(s.map(a => [a.id, a])).values())`: the entries are set one after
      the other, from the front of `s` to its back. Every id of the input survives, exactly
      once, and no other id appears. */
  function Dedup(s: seq<Attack>): (r: seq<Attack>)
    ensures Distinct(Ids(r))
    ensures forall id :: id in Ids(r) <==> id in Ids(s)
  {
    if |s| == 0 then []
    else
      var p, x := s[..|s| - 1], s[|s| - 1];
      var m := Dedup(p);
      assert Ids(s) == Ids(p) + [x.id] by {
        assert s == p + [x];
        IdsConcat(p, [x]);
      }
      assert x.id !in Ids(m) ==> Distinct(Ids(m) + [x.id]) by {
        if x.id !in Ids(m) { DistinctAppend(Ids(m), x.id); }
      }
      MapSet(m, x)
  }

  /** `s.slice(0, n)` */
  function Take(s: seq<Attack>, n: nat): (r: seq<Attack>)
    ensures |r| == if |s| <= n then |s| else n
    ensures r == s[..|r|]
    ensures UniqueIds(s) ==> UniqueIds(r)
  {
    if |s| <= n then s else s[..n]
  }

  /** `addNewAttack`: prepend the record, deduplicate by id, keep the first fifteen.
      Whatever the previous list held, duplicates included, the result is within the cap
      and duplicate-free. */
  function Insert(prev: seq<Attack>, a: Attack): (r: seq<Attack>)
    ensures |r| <= MAX_ATTACKS_IN_FEED
    ensures UniqueIds(r)
  {
    var d := Dedup([a] + prev);
    assert UniqueIds(d) by { UniqueIdsDistinct(d); }
    Take(d, MAX_ATTACKS_IN_FEED)
  }

  /** The position of the first attack of `s` with the given id. */
  function FirstIndex(s: seq<Attack>, id: string): (i: nat)
    requires id in Ids(s)
    ensures i < |s| && s[i].id == id
    ensures forall j :: 0 <= j < i ==> s[j].id != id
  {
    if s[0].id == id then 0 else 1 + FirstIndex(s[1..], id)
  }

  /** The position of the last attack of `s` with the given id. */
  function LastIndex(s: seq<Attack>, id: string): (i: nat)
    requires id in Ids(s)
    ensures i < |s| && s[i].id == id
    ensures forall j :: i < j < |s| ==> s[j].id != id
  {
    if id in Ids(s[1..]) then 1 + LastIndex(s[1..], id)
    else
      assert forall j :: 1 <= j < |s| ==> s[j].id != id by { IdsAt(s[1..]); }
      0
  }

  lemma FirstIndexExtend(s: seq<Attack>, x: Attack, id: string)
    requires id in Ids(s)
    ensures id in Ids(s + [x]) && FirstIndex(s + [x], id) == FirstIndex(s, id)
  {
    IdsConcat(s, [x]);
    var i := FirstIndex(s, id);
    var k := FirstIndex(s + [x], id);
    assert (s + [x])[i] == s[i];
    assert k < |s| ==> (s + [x])[k] == s[k];
  }

  lemma FirstIndexFresh(s: seq<Attack>, x: Attack)
    requires x.id !in Ids(s)
    ensures x.id in Ids(s + [x]) && FirstIndex(s + [x], x.id) == |s|
  {
    IdsConcat(s, [x]);
    IdsAt(s);
    assert forall j :: 0 <= j < |s| ==> (s + [x])[j] == s[j] && s[j].id != x.id;
  }

  lemma LastIndexAtEnd(s: seq<Attack>)
    requires |s| > 0
    ensures s[|s| - 1].id in Ids(s) && LastIndex(s, s[|s| - 1].id) == |s| - 1
  {
    IdInIds(s, |s| - 1);
  }

  lemma LastIndexExtend(s: seq<Attack>, x: Attack, id: string)
    requires id in Ids(s) && id != x.id
    ensures id in Ids(s + [x]) && LastIndex(s + [x], id) == LastIndex(s, id)
  {
    IdsConcat(s, [x]);
    var i := LastIndex(s, id);
    var k := LastIndex(s + [x], id);
    assert (s + [x])[i] == s[i];
    assert k < |s| ==> (s + [x])[k] == s[k];
  }

  /** Setting a key already in a duplicate-free map replaces its value in place. */
  lemma {:induction false} MapSetHit(m: seq<Attack>, a: Attack, k: nat)
    requires UniqueIds(m) && k < |m| && m[k].id == a.id
    ensures MapSet(m, a) == m[k := a]
  {
    if k > 0 {
      MapSetHit(m[1..], a, k - 1);
      assert m[1..][k - 1 := a] == m[k := a][1..];
    }
  }

  /** Where `x.id` already occurs in `Dedup(p)`, and its position. */
  lemma HitIndex(m: seq<Attack>, x: Attack) returns (k: nat)
    requires x.id in Ids(m)
    ensures k < |m| && m[k].id == x.id
  {
    IdsAt(m);
    k :| 0 <= k < |m| && Ids(m)[k] == x.id;
  }

  /** Every record of `r` is the last record of `s` with its id. */
  ghost predicate KeepsLast(s: seq<Attack>, r: seq<Attack>) {
    forall j :: 0 <= j < |r| ==> r[j].id in Ids(s) && r[j] == s[LastIndex(s, r[j].id)]
  }

  lemma KeepsLastHit(p: seq<Attack>, x: Attack, m: seq<Attack>, k: nat)
    requires KeepsLast(p, m) && UniqueIds(m) && k < |m| && m[k].id == x.id
    ensures KeepsLast(p + [x], m[k := x])
  {
    var s, r := p + [x], m[k := x];
    forall j | 0 <= j < |r|
      ensures r[j].id in Ids(s) && r[j] == s[LastIndex(s, r[j].id)]
    {
      if j != k {
        LastIndexExtend(p, x, m[j].id);
      } else {
        LastIndexAtEnd(s);
      }
    }
  }

  lemma KeepsLastFresh(p: seq<Attack>, x: Attack, m: seq<Attack>)
    requires KeepsLast(p, m) && x.id !in Ids(m)
    ensures KeepsLast(p + [x], m + [x])
  {
    var s, r := p + [x], m + [x];
    forall j | 0 <= j < |r|
      ensures r[j].id in Ids(s) && r[j] == s[LastIndex(s, r[j].id)]
    {
      if j < |m| {
        IdInIds(m, j);
        LastIndexExtend(p, x, m[j].id);
      } else {
        LastIndexAtEnd(s);
      }
    }
  }

  /** Each attack the deduplication keeps is the LAST record of the input with its id. */
  lemma {:induction false} DedupKeepsLast(s: seq<Attack>)
    ensures KeepsLast(s, Dedup(s))
  {
    if |s| > 0 {
      DedupKeepsLast(s[..|s| - 1]);
      KeepsLastStep(s);
    }
  }

  lemma KeepsLastStep(s: seq<Attack>)
    requires |s| > 0 && KeepsLast(s[..|s| - 1], Dedup(s[..|s| - 1]))
    ensures KeepsLast(s, Dedup(s))
  {
    var p, x := s[..|s| - 1], s[|s| - 1];
    var m := Dedup(p);
    assert Dedup(s) == MapSet(m, x);
    SnocSplit(s);
    if x.id in Ids(m) {
      UniqueIdsDistinct(m);
      var k := HitIndex(m, x);
      MapSetHit(m, x, k);
      KeepsLastHit(p, x, m, k);
    } else {
      KeepsLastFresh(p, x, m);
    }
  }

  /** Every id of `m` occurs in `s`. */
  predicate IdsWithin(m: seq<Attack>, s: seq<Attack>) {
    forall j :: 0 <= j < |m| ==> m[j].id in Ids(s)
  }

  /** The records of `r` are in the order of the first occurrences of their ids in `s`. */
  ghost predicate FirstOrder(s: seq<Attack>, r: seq<Attack>) {
    IdsWithin(r, s) && forall j, k :: 0 <= j < k < |r| ==> FirstIndex(s, r[j].id) < FirstIndex(s, r[k].id)
  }

  lemma FirstOrderHit(p: seq<Attack>, x: Attack, m: seq<Attack>, k: nat)
    requires FirstOrder(p, m) && k < |m| && m[k].id == x.id
    ensures FirstOrder(p + [x], m[k := x])
  {
    var s, r := p + [x], m[k := x];
    forall j | 0 <= j < |r| ensures r[j].id in Ids(s) && FirstIndex(s, r[j].id) == FirstIndex(p, m[j].id) {
      FirstIndexExtend(p, x, m[j].id);
    }
  }

  lemma FirstOrderFresh(p: seq<Attack>, x: Attack, m: seq<Attack>)
    requires FirstOrder(p, m) && x.id !in Ids(p)
    ensures FirstOrder(p + [x], m + [x])
  {
    var s, r := p + [x], m + [x];
    FirstIndexFresh(p, x);
    forall j | 0 <= j < |m| ensures r[j].id in Ids(s) && FirstIndex(s, r[j].id) == FirstIndex(p, m[j].id) {
      FirstIndexExtend(p, x, m[j].id);
    }
  }

  /** The ids the deduplication keeps are in the order of their FIRST occurrences. */
  lemma {:induction false} DedupKeepsFirstOrder(s: seq<Attack>)
    ensures FirstOrder(s, Dedup(s))
  {
    if |s| > 0 {
      DedupKeepsFirstOrder(s[..|s| - 1]);
      FirstOrderStep(s);
    }
  }

  lemma FirstOrderStep(s: seq<Attack>)
    requires |s| > 0 && FirstOrder(s[..|s| - 1], Dedup(s[..|s| - 1]))
    ensures FirstOrder(s, Dedup(s))
  {
    var p, x := s[..|s| - 1], s[|s| - 1];
    var m := Dedup(p);
    assert Dedup(s) == MapSet(m, x);
    SnocSplit(s);
    if x.id in Ids(m) {
      UniqueIdsDistinct(m);
      var k := HitIndex(m, x);
      MapSetHit(m, x, k);
      FirstOrderHit(p, x, m, k);
    } else {
      FirstOrderFresh(p, x, m);
    }
  }

  lemma SnocSplit(s: seq<Attack>)
    requires |s| > 0
    ensures s == s[..|s| - 1] + [s[|s| - 1]]
  {
  }

  /** A duplicate-free list is left as it is by the deduplication. */
  lemma {:induction false} DedupOfUnique(s: seq<Attack>)
    requires UniqueIds(s)
    ensures Dedup(s) == s
  {
    if |s| > 0 {
      var p, x := s[..|s| - 1], s[|s| - 1];
      assert p + [x] == s;
      UniqueSnoc(p, x);
      DedupOfUnique(p);
      DedupSnoc(p, x);
    }
  }

  /** Dropping the last record of a duplicate-free list leaves one, without its id. */
  lemma UniqueSnoc(p: seq<Attack>, x: Attack)
    requires UniqueIds(p + [x])
    ensures UniqueIds(p) && x.id !in Ids(p)
  {
    var s := p + [x];
    IdsAt(p);
    forall i | 0 <= i < |p| ensures Ids(p)[i] != x.id {
      assert s[i] == p[i] && s[|s| - 1] == x;
    }
    forall i, j | 0 <= i < j < |p| ensures p[i].id != p[j].id {
      assert s[i] == p[i] && s[j] == p[j];
    }
  }

  /** No record of `v` has an id that occurs in `u`. */
  predicate FreshAfter(u: seq<Attack>, v: seq<Attack>) {
    forall i :: 0 <= i < |v| ==> v[i].id !in Ids(u)
  }

  /** `Dedup(p + [x])` sets `x` after the records of `p`. */
  lemma DedupSnoc(p: seq<Attack>, x: Attack)
    ensures Dedup(p + [x]) == MapSet(Dedup(p), x)
  {
    assert (p + [x])[..|p|] == p;
  }

  /** The last record of a fresh, distinct tail is new to what comes before it. */
  lemma LastOfFreshTail(u: seq<Attack>, v: seq<Attack>)
    requires |v| > 0 && UniqueIds(v) && FreshAfter(u, v)
    ensures v[|v| - 1].id !in Ids(Dedup(u) + v[..|v| - 1])
    ensures UniqueIds(v[..|v| - 1]) && FreshAfter(u, v[..|v| - 1])
  {
    var v', x := v[..|v| - 1], v[|v| - 1];
    var d := Dedup(u);
    assert x.id !in Ids(d);
    forall j | 0 <= j < |v'| ensures v'[j].id != x.id {
      assert v'[j] == v[j];
    }
    NotInIds(v', x.id);
    IdsConcat(d, v');
  }

  /** Setting a new key after a known deduplication appends the record. */
  lemma DedupSnocFresh(w: seq<Attack>, x: Attack, m: seq<Attack>)
    requires Dedup(w) == m && x.id !in Ids(m)
    ensures Dedup(w + [x]) == m + [x]
  {
    DedupSnoc(w, x);
  }

  lemma Regroup(u: seq<Attack>, v: seq<Attack>, d: seq<Attack>)
    requires |v| > 0
    ensures u + v == (u + v[..|v| - 1]) + [v[|v| - 1]]
    ensures d + v == (d + v[..|v| - 1]) + [v[|v| - 1]]
  {
    assert v == v[..|v| - 1] + [v[|v| - 1]];
  }

  /** Appending records with fresh, distinct ids to the input appends them to the output. */
  lemma {:induction false} DedupAppendFresh(u: seq<Attack>, v: seq<Attack>)
    requires UniqueIds(v)
    requires FreshAfter(u, v)
    ensures Dedup(u + v) == Dedup(u) + v
    decreases |v|
  {
    if |v| == 0 {
      assert u + v == u;
    } else {
      var v', x := v[..|v| - 1], v[|v| - 1];
      LastOfFreshTail(u, v);
      DedupAppendFresh(u, v');
      DedupSnocFresh(u + v', x, Dedup(u) + v');
      Regroup(u, v, Dedup(u));
    }
  }

  /** Inserting a record whose id is not in a duplicate-free feed puts it at the front,
      followed by the previous records in order, cut to the cap. */
  lemma FreshInsert(prev: seq<Attack>, a: Attack)
    requires UniqueIds(prev) && a.id !in Ids(prev)
    ensures Insert(prev, a) == Take([a] + prev, MAX_ATTACKS_IN_FEED)
    ensures Insert(prev, a)[0] == a
  {
    IdsAt(prev);
    assert UniqueIds([a] + prev) by {
      forall i, j | 0 <= i < j < |[a] + prev| ensures ([a] + prev)[i].id != ([a] + prev)[j].id {
        if i == 0 {
          assert Ids(prev)[j - 1] == prev[j - 1].id;
        }
      }
    }
    DedupOfUnique([a] + prev);
  }

  lemma CollisionPrefixUnique(prev: seq<Attack>, a: Attack, k: nat)
    requires UniqueIds(prev) && k < |prev| && prev[k].id == a.id
    ensures UniqueIds([a] + prev[..k])
  {
    var u := [a] + prev[..k];
    forall i, j | 0 <= i < j < |u| ensures u[i].id != u[j].id {
      assert u[j] == prev[j - 1];
      assert i > 0 ==> u[i] == prev[i - 1];
    }
  }

  /** Up to and including the colliding record, the stored one takes the new one's place. */
  lemma CollisionHead(prev: seq<Attack>, a: Attack, k: nat)
    requires UniqueIds(prev) && k < |prev| && prev[k].id == a.id
    ensures Dedup([a] + prev[..k + 1]) == [prev[k]] + prev[..k]
  {
    var u := [a] + prev[..k];
    var w := [a] + prev[..k + 1];
    CollisionPrefixUnique(prev, a, k);
    assert w == u + [prev[k]];
    assert Dedup(u) == u by { DedupOfUnique(u); }
    assert Dedup(w) == MapSet(Dedup(u), prev[k]) by { DedupSnoc(u, prev[k]); }
    assert MapSet(u, prev[k]) == u[0 := prev[k]] by { MapSetHit(u, prev[k], 0); }
    assert u[0 := prev[k]] == [prev[k]] + prev[..k];
  }

  /** After the colliding record, every record has an id not seen before. */
  lemma CollisionTailFresh(prev: seq<Attack>, a: Attack, k: nat)
    requires UniqueIds(prev) && k < |prev| && prev[k].id == a.id
    ensures UniqueIds(prev[k + 1..])
    ensures FreshAfter([a] + prev[..k + 1], prev[k + 1..])
  {
    var w, v := [a] + prev[..k + 1], prev[k + 1..];
    forall i | 0 <= i < |v| ensures v[i].id !in Ids(w) {
      assert v[i] == prev[k + 1 + i];
      forall j | 0 <= j < |w| ensures w[j].id != v[i].id {
        assert 0 < j ==> w[j] == prev[j - 1];
      }
      NotInIds(w, v[i].id);
    }
    forall i, j | 0 <= i < j < |v| ensures v[i].id != v[j].id {
      assert v[i] == prev[k + 1 + i] && v[j] == prev[k + 1 + j];
    }
  }

  /** The deduplication step of an insert whose id is stored at index k. */
  lemma CollisionDedup(prev: seq<Attack>, a: Attack, k: nat)
    requires UniqueIds(prev) && k < |prev| && prev[k].id == a.id
    ensures Dedup([a] + prev) == [prev[k]] + prev[..k] + prev[k + 1..]
  {
    var w, v := [a] + prev[..k + 1], prev[k + 1..];
    SplitAfter(prev, a, k);
    CollisionHead(prev, a, k);
    CollisionTailFresh(prev, a, k);
    DedupAppendFresh(w, v);
  }

  lemma SplitAfter(prev: seq<Attack>, a: Attack, k: nat)
    requires k < |prev|
    ensures ([a] + prev[..k + 1]) + prev[k + 1..] == [a] + prev
  {
    assert prev[..k + 1] + prev[k + 1..] == prev;
  }

  /** Inserting a record whose id is already stored at index k of a duplicate-free feed does
      not grow the feed: the STORED record moves to the front and the new one is dropped,
      which is what a `Map` built over `[new, ...prev]` does. */
  lemma Collision(prev: seq<Attack>, a: Attack, k: nat)
    requires UniqueIds(prev) && k < |prev| && prev[k].id == a.id
    ensures Insert(prev, a) == Take([prev[k]] + prev[..k] + prev[k + 1..], MAX_ATTACKS_IN_FEED)
    ensures |Insert(prev, a)| == if |prev| <= MAX_ATTACKS_IN_FEED then |prev| else MAX_ATTACKS_IN_FEED
    ensures Insert(prev, a)[0] == prev[k]
  {
    CollisionDedup(prev, a, k);
  }

  /** What the browser's storage slot held at start-up: nothing, or a text together with
      the outcome of `JSON.parse` on it (None when parsing threw). */
  datatype Saved = Missing | Stored(text: string, parsed: Option<seq<Attack>>)

  /** The `useState` initialiser: a missing or empty text, or a parse failure, gives the
      empty feed; otherwise the parsed array is taken as it is. */
  function Load(saved: Saved): (r: seq<Attack>)
    ensures r != [] ==> saved.Stored? && saved.text != "" && saved.parsed == Some(r)
    ensures saved.Stored? && saved.text != "" && saved.parsed.Some? ==> r == saved.parsed.value
  {
    match saved
    case Missing => []
    case Stored(text, parsed) =>
      if text == "" then []
      else match parsed
        case None => []
        case Some(xs) => xs
  }

  /** Rehydration neither caps nor deduplicates: sixteen copies of one record load as
      sixteen records. */
  lemma LoadDoesNotCapOrDedup(a: Attack, text: string)
    requires text != ""
    ensures var xs := seq(16, _ => a);
      Load(Stored(text, Some(xs))) == xs && |Load(Stored(text, Some(xs)))| > MAX_ATTACKS_IN_FEED
      && !UniqueIds(Load(Stored(text, Some(xs))))
  {
    var xs := seq(16, _ => a);
    assert xs[0].id == xs[1].id;
  }
}
