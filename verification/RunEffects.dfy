// What one more step of a run shows in the tables, for any run before it.
module RunEffects {
  import opened Ids
  import opened Database
  import opened Bundles
  import opened BundleDefects
  import opened Portable
  import opened PortableProofs
  import opened ImportEffects
  import opened StoreEffects
  import opened Runs

  /** After a sweep at this time no active set is due; the others are as they were. */
  lemma SweepInRun(steps: seq<Step>, now: int, id: Id)
    requires id in Run(steps).workingSets
    ensures var (before, after) := (Run(steps).workingSets, Run(steps + [ExpireStep(now)]).workingSets);
      && id in after && !Due(after[id], now)
      && after[id].state == (if Due(before[id], now) then SetExpired else before[id].state)
  {
    RunOneMore(steps, ExpireStep(now));
    SweepClosesDue(Run(steps), now, id);
  }

  /** After the switch the task's active set recalls globally, or not, as asked. */
  lemma SwitchInRun(steps: seq<Step>, namespace: Id, task: Id, enabled: bool, at: int, id: Id)
    requires id in Run(steps).workingSets && Run(steps).workingSets[id].state == SetActive && namespace != NO_ID && task != NO_ID
    requires Run(steps).workingSets[id].scope.namespace == namespace && Run(steps).workingSets[id].task == task
    ensures var after := Run(steps + [GlobalRecallStep(namespace, task, enabled, at)]);
      after.workingSets == Run(steps).workingSets[id := Run(steps).workingSets[id].(globalRecall := enabled, updatedAt := at)]
  {
    EveryRunIsSound(steps);
    RunOneMore(steps, GlobalRecallStep(namespace, task, enabled, at));
    SwitchAcceptedIff(Run(steps), namespace, task, enabled, at);
    RecallSwitched(Run(steps), namespace, task, enabled, at, id);
  }

  /** An observation under a free id is stored. */
  lemma ObservationInRun(steps: seq<Step>, id: Id, o: Observation)
    requires id != NO_ID && id !in Run(steps).observations
    ensures Run(steps + [ObservationStep(id, o)]).observations == Run(steps).observations[id := o]
  {
    RunOneMore(steps, ObservationStep(id, o));
    ObservationStored(Run(steps), id, o);
  }

  /** An import stores its bundle if the bundle is sound and meets nothing, and else leaves the tables as they were. */
  lemma ImportInRun(steps: seq<Step>, b: Bundle)
    ensures var (before, after) := (Run(steps), Run(steps + [ImportStep(b)]));
      if !Defective(b) && NoSharedKeys(before, b) && TasksApart(b) && ParentsOnce(b)
      then StoresBundle(before, b, after) && LinksBundle(before, b, after) && IndexesBundle(before, b, after)
      else after == before
  {
    EveryRunIsSound(steps);
    RunOneMore(steps, ImportStep(b));
    ImportAcceptedIff(Run(steps), b);
    if Import(Run(steps), b).Success? {
      ImportStores(Run(steps), b);
    }
  }
}
