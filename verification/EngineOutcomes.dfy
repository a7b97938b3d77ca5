/** What the bulk download of a chat makes of a batch task: how it reads the items
    back, and which of them it finds neither completed nor failed. */
module EngineOutcomes {
  import B = BatchExecution
  import I = ItemPhases
  import E = BulkBlocks

  /** An item counts as saved when completed and is put down as failed when
      failed; any other phase changes nothing. */
  function ReadBack(p: I.Phase, wasStored: bool): E.Outcome {
    match p
    case Completed => E.Completed
    case Failed => E.Failed(wasStored)
    case _ => E.Stopped(wasStored)
  }

  /** The batch task for one page, with errors ignored. Unless an error that
      wraps a cancellation ended it, the items left midway are exactly those whose
      batch group stopped at the cache file of another one. */
  method RunPage(table: I.ItemTable, elems: seq<B.Element>, s: I.Surroundings, wasStored: string -> bool)
      returns (outcomes: map<string, E.Outcome>, result: B.Outcome)
    requires I.Distinct(elems) && I.AllMidway(table.items, elems)
    modifies table
    ensures forall e :: e in elems ==>
              e.id in table.items && e.id in outcomes
              && outcomes[e.id] == ReadBack(table.items[e.id].phase, wasStored(e.id))
              && (outcomes[e.id].Completed? <==> table.items[e.id].phase.Completed?)
              && (outcomes[e.id].Failed? <==> table.items[e.id].phase.Failed?)
    ensures !result.Failed?
    ensures result.Done? ==> forall e :: e in elems ==>
              (outcomes[e.id].Stopped? <==> I.SomeLost(B.Calls(B.Groups(elems)), e, s))
  {
    result := table.RunTask(elems, s, true);
    outcomes := map id | id in table.items :: ReadBack(table.items[id].phase, wasStored(id));
  }

  /** A live run strands the sibling of an album item whose cache file is lost. */
  lemma LostCacheIsMidway(o: E.Oracle, t: nat, id: int, a: B.Element, b: B.Element, s: I.Surroundings, wasStored: bool)
    requires a.id != b.id && s.download(a.id).Done? && s.download(b.id).Done? && s.cached(a.id).None?
    requires !o.cancelled(t + 1) && o.outcome(t, id) == ReadBack(I.LeftIn([a, b], b, s, true), wasStored)
    ensures E.LeftMidway(o, t, id)
  {
    I.LostCacheStrandsItem(a, b, s);
  }
}
