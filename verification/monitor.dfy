/** The per-process monitor: one handler per launched or adopted process,
    which on the process's exit asks for a restart and raises the
    "a process terminated" event. */
module Monitor {
  import opened Records
  import opened Sync

  /** How the handler got its process: started from the path, or attached to
      an already running process with this pid. */
  datatype Mode = Launched | Adopted(pid: int)

  class ProcessHandler {
    const record: ProcessRecord
    const mode: Mode
    const processQueue: Queue<ConfigItem>
    const event: Event

    constructor (record: ProcessRecord, mode: Mode, processQueue: Queue<ConfigItem>, event: Event)
      ensures this.record == record && this.mode == mode
      ensures this.processQueue == processQueue && this.event == event
    {
      this.record := record;
      this.mode := mode;
      this.processQueue := processQueue;
      this.event := event;
    }

    /** What the handler does once its process has exited: re-enqueue its own
        `{name: path}` and set the event unless it is already set. `raised`
        tells whether this call was the one that set it. */
    method Finish() returns (raised: bool)
      modifies processQueue, event
      ensures RestartState(processQueue.items, event.flag)
           == AfterExit(RestartState(old(processQueue.items), old(event.flag)), record)
      ensures raised == !old(event.flag)
    {
      processQueue.Put([record]);
      var isSet := event.IsSet();
      raised := !isSet;
      if raised {
        event.Set();
      }
    }
  }

  /** The restart queue's contents and the terminated-event flag. */
  datatype RestartState = RestartState(queue: seq<ConfigItem>, terminated: bool)

  /** One exit of the process of `r`: its singleton dict joins the back of the
      queue and the flag ends set, whatever it was before. */
  function AfterExit(s: RestartState, r: ProcessRecord): (s': RestartState)
  {
    RestartState(s.queue + [[r]], true)
  }

  /** Exits of the processes of `rs`, in that order. */
  function AfterExits(s: RestartState, rs: seq<ProcessRecord>): (s': RestartState)
    decreases rs
  {
    if rs == [] then s else AfterExits(AfterExit(s, rs[0]), rs[1..])
  }

  /** Every exit re-enqueues its record exactly once, in exit order; the flag
      is set after any exit and untouched when there is none. */
  lemma {:induction false} ExitsRequeueEach(s: RestartState, rs: seq<ProcessRecord>)
    ensures AfterExits(s, rs).queue == s.queue + Singletons(rs)
    ensures AfterExits(s, rs).terminated == (s.terminated || rs != [])
    decreases rs
  {
    if rs != [] {
      ExitsRequeueEach(AfterExit(s, rs[0]), rs[1..]);
      assert Singletons(rs) == [[rs[0]]] + Singletons(rs[1..]);
    }
  }
}
