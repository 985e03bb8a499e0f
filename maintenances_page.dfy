/** The maintenance page's two tabs: the completed and the scheduled
    records of the fetched list. */
module MaintenanceLists {
  import opened Fleet
  import opened Seqs

  predicate IsCompleted(m: Maintenance)
  {
    m.status == Completed
  }

  predicate IsScheduled(m: Maintenance)
  {
    m.status == Scheduled
  }

  /** `maintenances.filter(m => m.status === "Concluído")`. */
  function CompletedMaintenances(ms: seq<Maintenance>): (r: seq<Maintenance>)
    ensures IsSubseq(r, ms)
    ensures forall m :: multiset(r)[m] == if m.status == Completed then multiset(ms)[m] else 0
  {
    Filter(ms, IsCompleted)
  }

  /** `maintenances.filter(m => m.status === "Agendado")`. */
  function ScheduledMaintenances(ms: seq<Maintenance>): (r: seq<Maintenance>)
    ensures IsSubseq(r, ms)
    ensures forall m :: multiset(r)[m] == if m.status == Scheduled then multiset(ms)[m] else 0
  {
    Filter(ms, IsScheduled)
  }

  /** The two tabs never share a record, together hold at most every
      record once, and a record with any other status is in neither. */
  lemma TabsPartition(ms: seq<Maintenance>)
    ensures forall m :: !(m in CompletedMaintenances(ms) && m in ScheduledMaintenances(ms))
    ensures |CompletedMaintenances(ms)| + |ScheduledMaintenances(ms)| <= |ms|
    ensures forall m: Maintenance :: m.status != Completed && m.status != Scheduled ==>
      m !in CompletedMaintenances(ms) && m !in ScheduledMaintenances(ms)
  {
    FilterDisjointLength(ms, IsCompleted, IsScheduled);
  }
}
