/** The dashboard's state cells and the handlers and timers that overwrite them. Each
    timer tick and each user action is a method call; the `attacks` cell goes through the
    feed reducer, the filter cell through the single-field update, and the metric cells
    through the rolling window. */
module Dashboard {
  import opened Types
  import opened Constants
  import opened FeedStore
  import opened Builders
  import opened Filters
  import opened Metrics

  class Dashboard {
    var attacks: seq<Attack>
    var selectedAttack: Option<Attack>
    var cpuData: seq<SystemMetric>
    var memData: seq<SystemMetric>
    var netData: seq<SystemMetric>
    var filters: FilterState

    /** The first render: the feed rehydrated from storage, nothing selected, empty
        charts, every filter on the wildcard. */
    constructor (saved: Saved)
      ensures attacks == Load(saved)
      ensures selectedAttack == None
      ensures cpuData == [] && memData == [] && netData == []
      ensures filters == ALL_FILTERS
    {
      attacks := Load(saved);
      selectedAttack := None;
      cpuData, memData, netData := [], [], [];
      filters := ALL_FILTERS;
    }

    /** `addNewAttack`: the feed becomes the reducer's result, which is within the cap and
        duplicate-free; no other cell changes. */
    method AddNewAttack(a: Attack)
      modifies this
      ensures attacks == Insert(old(attacks), a)
      ensures |attacks| <= MAX_ATTACKS_IN_FEED && UniqueIds(attacks)
      ensures selectedAttack == old(selectedAttack) && filters == old(filters)
      ensures cpuData == old(cpuData) && memData == old(memData) && netData == old(netData)
    {
      attacks := Insert(attacks, a);
    }

    /** `createAttack`, run by the generator's timer. */
    method CreateAttack(d: Draws, m: Moment)
      requires ValidDraws(d)
      modifies this
      ensures attacks == Insert(old(attacks), RandomAttack(d, m))
      ensures |attacks| <= MAX_ATTACKS_IN_FEED && UniqueIds(attacks)
      ensures selectedAttack == old(selectedAttack) && filters == old(filters)
      ensures cpuData == old(cpuData) && memData == old(memData) && netData == old(netData)
    {
      AddNewAttack(RandomAttack(d, m));
    }

    /** `handleTriggerAttack`, called by the simulator form. */
    method TriggerAttack(details: TriggerDetails, ip: seq<real>, m: Moment)
      requires IpDraws(ip)
      modifies this
      ensures attacks == Insert(old(attacks), Builders.TriggerAttack(details, ip, m))
      ensures |attacks| <= MAX_ATTACKS_IN_FEED && UniqueIds(attacks)
      ensures selectedAttack == old(selectedAttack) && filters == old(filters)
      ensures cpuData == old(cpuData) && memData == old(memData) && netData == old(netData)
    {
      AddNewAttack(Builders.TriggerAttack(details, ip, m));
    }

    /** `handleSelectAttack`: clicking a feed row or a map marker. */
    method SelectAttack(a: Attack)
      modifies this
      ensures selectedAttack == Some(a)
      ensures attacks == old(attacks) && filters == old(filters)
      ensures cpuData == old(cpuData) && memData == old(memData) && netData == old(netData)
    {
      selectedAttack := Some(a);
    }

    /** `handleFilterChange`: only the named field of the filter changes. */
    method FilterChange(field: FilterField, value: string)
      modifies this
      ensures filters == Update(old(filters), field, value)
      ensures Get(filters, field) == value
      ensures forall g :: g != field ==> Get(filters, g) == Get(old(filters), g)
      ensures attacks == old(attacks) && selectedAttack == old(selectedAttack)
      ensures cpuData == old(cpuData) && memData == old(memData) && netData == old(netData)
    {
      filters := Update(filters, field, value);
    }

    /** The metrics effect's start: all three charts get the initial window. */
    method StartMetrics()
      modifies this
      ensures cpuData == InitialData() && memData == InitialData() && netData == InitialData()
      ensures attacks == old(attacks) && selectedAttack == old(selectedAttack)
      ensures filters == old(filters)
    {
      var initial := InitialData();
      cpuData, memData, netData := initial, initial, initial;
    }

    /** One tick of the metrics timer: each chart takes its own sample. */
    method TickMetrics(cpu: real, mem: real, net: real)
      modifies this
      ensures cpuData == UpdateData(old(cpuData), cpu)
      ensures memData == UpdateData(old(memData), mem)
      ensures netData == UpdateData(old(netData), net)
      ensures |old(cpuData)| > 0 ==> Values(cpuData) == Values(old(cpuData))[1..] + [cpu]
      ensures |old(memData)| > 0 ==> Values(memData) == Values(old(memData))[1..] + [mem]
      ensures |old(netData)| > 0 ==> Values(netData) == Values(old(netData))[1..] + [net]
      ensures attacks == old(attacks) && selectedAttack == old(selectedAttack)
      ensures filters == old(filters)
    {
      if |cpuData| > 0 {
        TickShifts(cpuData, cpu);
      }
      if |memData| > 0 {
        TickShifts(memData, mem);
      }
      if |netData| > 0 {
        TickShifts(netData, net);
      }
      cpuData := UpdateData(cpuData, cpu);
      memData := UpdateData(memData, mem);
      netData := UpdateData(netData, net);
    }

    /** `filteredAttacks`: the feed records that pass the current filter, in feed order.
        The map and the feed list both show this list. */
    function FilteredAttacks(): (r: seq<Attack>)
      reads this
      ensures r == Apply(attacks, filters)
      ensures forall a :: a in r <==> a in attacks && Matches(filters, a)
      ensures UniqueIds(attacks) ==> UniqueIds(r)
    {
      assert UniqueIds(attacks) ==> UniqueIds(Apply(attacks, filters)) by {
        if UniqueIds(attacks) {
          ApplyKeepsUniqueIds(attacks, filters);
        }
      }
      Apply(attacks, filters)
    }

    /** `selectedAttack?.id`, handed to the map and to the feed list. */
    function SelectedAttackId(): (r: Option<string>)
      reads this
      ensures r.Some? <==> selectedAttack.Some?
      ensures r.Some? ==> r.value == selectedAttack.value.id
    {
      match selectedAttack
      case None => None
      case Some(a) => Some(a.id)
    }
  }

  /** Whatever the storage held, one insert brings the feed within the cap and makes it
      duplicate-free, and later inserts keep it so. */
  method FeedInvariantScenario(saved: Saved, a: Attack, b: Attack)
    returns (d: Dashboard)
    ensures |d.attacks| <= MAX_ATTACKS_IN_FEED && UniqueIds(d.attacks)
    ensures d.attacks == Insert(Insert(Load(saved), a), b)
  {
    d := new Dashboard(saved);
    d.AddNewAttack(a);
    d.AddNewAttack(b);
  }
}
