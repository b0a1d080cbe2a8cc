/** The supervisor's own sequential steps: reconciling the configured
    processes with those already running, seeding the restart queue, and
    turning one dequeued item into launched handlers and notification lines. */
module Supervisor {
  import opened Records
  import opened Sync
  import opened Reconciliation
  import opened Monitor

  /** The handlers `hs` carry out `bindings` one for one: same records,
      adopting the same pids, all reporting to the same queue and event. */
  predicate AdoptsAll(hs: seq<ProcessHandler>, bindings: seq<Adoption>,
                      processQueue: Queue<ConfigItem>, event: Event)
  {
    && |hs| == |bindings|
    && forall i :: 0 <= i < |hs| ==>
         && hs[i].record == bindings[i].record
         && hs[i].mode == Adopted(bindings[i].pid)
         && hs[i].processQueue == processQueue
         && hs[i].event == event
  }

  /** No handler object occurs twice in `hs`: each one is its own thread. */
  predicate Distinct(hs: seq<ProcessHandler>)
  {
    forall i, j :: 0 <= i < j < |hs| ==> hs[i] != hs[j]
  }

  /** One round of the reconciliation loop: pops the front item of
      `settings.processes` and handles its entries in dict order. An entry
      whose path some running process executes gets a handler adopting the
      first such process; any other entry is appended to the same list as a
      singleton dict. */
  method ReconcileFront(settings: Settings, procs: seq<RunningProcess>,
                        processQueue: Queue<ConfigItem>, event: Event)
    returns (adopted: seq<ProcessHandler>)
    requires settings.processes != []
    modifies settings
    ensures settings.processes
            == old(settings.processes)[1..] + Singletons(Unmatched(old(settings.processes)[0], procs))
    ensures AdoptsAll(adopted, Adoptions(old(settings.processes)[0], procs), processQueue, event)
    ensures forall h :: h in adopted ==> fresh(h)
    ensures Distinct(adopted)
  {
    var item := settings.processes[0];
    settings.processes := settings.processes[1..];
    adopted := [];
    for j := 0 to |item|
      invariant settings.processes == old(settings.processes)[1..] + Singletons(Unmatched(item[..j], procs))
      invariant AdoptsAll(adopted, Adoptions(item[..j], procs), processQueue, event)
      invariant forall h :: h in adopted ==> fresh(h)
      invariant Distinct(adopted)
    {
      var r := item[j];
      ghost var u, a := Unmatched(item[..j], procs), Adoptions(item[..j], procs);
      ClassifyNext(item, j, procs);
      var filtered := Matches(procs, r.path);
      if |filtered| > 0 {
        assert Adoptions(item[..j + 1], procs) == a + [Adoption(r, filtered[0].pid)];
        var h := new ProcessHandler(r, Adopted(filtered[0].pid), processQueue, event);
        adopted := adopted + [h];
      } else {
        SingletonsAppend(u, [r]);
        settings.processes := settings.processes + [[r]];
      }
    }
    assert item[..|item|] == item;
  }

  /** How the entry at `j` extends the classification of the entries before it. */
  lemma ClassifyNext(item: ConfigItem, j: nat, procs: seq<RunningProcess>)
    requires j < |item|
    ensures FirstMatch(procs, item[j].path).Some? ==>
              && Unmatched(item[..j + 1], procs) == Unmatched(item[..j], procs)
              && Adoptions(item[..j + 1], procs)
                 == Adoptions(item[..j], procs) + [Adoption(item[j], FirstMatch(procs, item[j].path).value)]
    ensures FirstMatch(procs, item[j].path).None? ==>
              && Unmatched(item[..j + 1], procs) == Unmatched(item[..j], procs) + [item[j]]
              && Adoptions(item[..j + 1], procs) == Adoptions(item[..j], procs)
  {
    assert item[..j + 1] == item[..j] + [item[j]];
    UnmatchedAppend(item[..j], [item[j]], procs);
    AdoptionsAppend(item[..j], [item[j]], procs);
  }

  /** Pops each configured item from the front of `settings.processes`, exactly
      as many times as the list was long at the start, so that every original
      item is handled once and no re-appended entry is handled again. */
  method Reconcile(settings: Settings, procs: seq<RunningProcess>,
                   processQueue: Queue<ConfigItem>, event: Event)
    returns (adopted: seq<ProcessHandler>)
    modifies settings
    ensures settings.processes == Singletons(Unmatched(Entries(old(settings.processes)), procs))
    ensures AdoptsAll(adopted, Adoptions(Entries(old(settings.processes)), procs), processQueue, event)
    ensures forall h :: h in adopted ==> fresh(h)
    ensures Distinct(adopted)
  {
    ghost var orig := settings.processes;
    adopted := [];
    var n := |settings.processes|;
    for k := 0 to n
      invariant settings.processes == orig[k..] + Singletons(Unmatched(Entries(orig[..k]), procs))
      invariant AdoptsAll(adopted, Adoptions(Entries(orig[..k]), procs), processQueue, event)
      invariant forall h :: h in adopted ==> fresh(h)
      invariant Distinct(adopted)
    {
      assert settings.processes[0] == orig[k];
      assert settings.processes[1..] == orig[k + 1..] + Singletons(Unmatched(Entries(orig[..k]), procs));
      ghost var before := adopted;
      label round:
      var more := ReconcileFront(settings, procs, processQueue, event);
      assert forall h :: h in more ==> fresh@round(h);
      forall i, j | 0 <= i < |before| && 0 <= j < |more|
        ensures before[i] != more[j]
      {
        assert more[j] in more;
      }
      assert forall h :: h in more ==> fresh(h);
      assert forall h :: h in before ==> fresh(h);
      adopted := adopted + more;
      ReconcileStep(orig, k, procs);
      AdoptsAllAppend(before, more, Adoptions(Entries(orig[..k]), procs), Adoptions(orig[k], procs),
                      processQueue, event);
    }
    assert orig[..n] == orig;
  }

  /** Handling item `k` extends the pending list and the adoptions for the
      items before it with those for item `k`. */
  lemma ReconcileStep(items: seq<ConfigItem>, k: nat, procs: seq<RunningProcess>)
    requires k < |items|
    ensures Singletons(Unmatched(Entries(items[..k + 1]), procs))
            == Singletons(Unmatched(Entries(items[..k]), procs)) + Singletons(Unmatched(items[k], procs))
    ensures Adoptions(Entries(items[..k + 1]), procs)
            == Adoptions(Entries(items[..k]), procs) + Adoptions(items[k], procs)
  {
    var done := Entries(items[..k]);
    EntriesPrefix(items, k);
    UnmatchedAppend(done, items[k], procs);
    AdoptionsAppend(done, items[k], procs);
    SingletonsAppend(Unmatched(done, procs), Unmatched(items[k], procs));
  }

  lemma AdoptsAllAppend(hs: seq<ProcessHandler>, more: seq<ProcessHandler>,
                        bs: seq<Adoption>, bs': seq<Adoption>,
                        processQueue: Queue<ConfigItem>, event: Event)
    requires AdoptsAll(hs, bs, processQueue, event) && AdoptsAll(more, bs', processQueue, event)
    ensures AdoptsAll(hs + more, bs + bs', processQueue, event)
  {
  }

  /** Puts every item of `settings.processes` onto the queue, in list order. */
  method InitProcessQueue(settings: Settings, queue: Queue<ConfigItem>)
    modifies queue
    ensures queue.items == old(queue.items) + settings.processes
  {
    for i := 0 to |settings.processes|
      invariant queue.items == old(queue.items) + settings.processes[..i]
    {
      assert settings.processes[..i + 1] == settings.processes[..i] + [settings.processes[i]];
      queue.Put(settings.processes[i]);
    }
  }

  /** Startup up to the first drain: a fresh restart queue and terminated
      event, reconciliation against the snapshot `procs`, then seeding. The
      queue then holds one singleton dict per configured entry that no
      running process matches, in configuration order. */
  method Startup(settings: Settings, procs: seq<RunningProcess>)
    returns (processQueue: Queue<ConfigItem>, event: Event, adopted: seq<ProcessHandler>)
    modifies settings
    ensures fresh(processQueue) && fresh(event) && !event.flag
    ensures settings.processes == Singletons(Unmatched(Entries(old(settings.processes)), procs))
    ensures processQueue.items == Singletons(Unmatched(Entries(old(settings.processes)), procs))
    ensures Entries(processQueue.items) == Unmatched(Entries(old(settings.processes)), procs)
    ensures AdoptsAll(adopted, Adoptions(Entries(old(settings.processes)), procs), processQueue, event)
    ensures forall h :: h in adopted ==> fresh(h)
    ensures Distinct(adopted)
  {
    event := new Event();
    processQueue := new Queue<ConfigItem>();
    adopted := Reconcile(settings, procs, processQueue, event);
    InitProcessQueue(settings, processQueue);
    EntriesOfSingletons(Unmatched(Entries(old(settings.processes)), procs));
  }

  /** One pass of the drain loop: take the front item of the restart queue,
      start a launching handler for each of its entries, queue that entry's
      name for the notification, and then look whether the restart queue is
      empty, which ends the drain. */
  method DrainStep(processQueue: Queue<ConfigItem>, emailQueue: Queue<string>, event: Event)
    returns (spawned: seq<ProcessHandler>, settled: bool)
    requires processQueue.items != []
    modifies processQueue, emailQueue
    ensures processQueue.items == old(processQueue.items)[1..]
    ensures emailQueue.items == old(emailQueue.items) + Names(old(processQueue.items)[0])
    ensures |spawned| == |old(processQueue.items)[0]|
    ensures forall i :: 0 <= i < |spawned| ==>
              && fresh(spawned[i])
              && spawned[i].record == old(processQueue.items)[0][i]
              && spawned[i].mode == Launched
              && spawned[i].processQueue == processQueue
              && spawned[i].event == event
    ensures Distinct(spawned)
    ensures settled <==> |old(processQueue.items)| == 1
  {
    var item := processQueue.Get();
    spawned := [];
    for j := 0 to |item|
      invariant processQueue.items == old(processQueue.items)[1..]
      invariant emailQueue.items == old(emailQueue.items) + Names(item[..j])
      invariant |spawned| == j
      invariant forall i :: 0 <= i < j ==>
                  && fresh(spawned[i])
                  && spawned[i].record == item[i]
                  && spawned[i].mode == Launched
                  && spawned[i].processQueue == processQueue
                  && spawned[i].event == event
      invariant Distinct(spawned)
    {
      var h := new ProcessHandler(item[j], Launched, processQueue, event);
      spawned := spawned + [h];
      NamesPrefix(item, j);
      emailQueue.Put(item[j].name);
    }
    assert item[..|item|] == item;
    settled := processQueue.Empty();
  }
}
