# Process supervisor: a Dafny model of its sequential core

The supervisor keeps a configured set of worker processes alive on one host.
At startup it compares the configured processes, a list of `{name: path}`
dicts, with the processes already running. It adopts each configured entry
whose path is already running and queues the rest for launch. A drain loop
then takes items off the restart queue. For each entry it starts a handler
thread that launches the process, and it queues the entry's name for the
notification e-mail. When a process exits, its handler re-enqueues its own
`{name: path}` and sets the "a process terminated" event. An e-mail thread
later drains the queued names into one message body between a configured
header and footer.

This project models those sequential steps with the threads, OS calls and
network left out:

- `records.dfy` (module `Records`) holds the values. A configured entry is a
  `ProcessRecord(name, path)`. A config item is a `seq<ProcessRecord>`,
  because dict iteration order is insertion order and matters here. A running
  process is `RunningProcess(pid, exe)`. The settings object is the class
  `Settings`, whose `processes` list is rewritten in place.
- `sync.dfy` (module `Sync`) models the shared `Queue` and `Event` objects as
  classes holding a `seq` and a `bool`.
- `reconciliation.dfy` (module `Reconciliation`) states what reconciliation
  computes, as pure functions: `Matches` (the `filter` over the snapshot),
  `FirstMatch`, `Unmatched` and `Adoptions`. The lemmas about them are here
  too.
- `monitor.dfy` (module `Monitor`) holds the handler class `ProcessHandler`
  and its exit step. The launch strategy is the tag `Launched | Adopted(pid)`.
- `notification.dfy` (module `Notification`) holds the message body, its
  reading back by `SplitLines`, and `EmailHandler.SendMail`.
- `supervisor.dfy` (module `Supervisor`) holds the reconciliation loop,
  `InitProcessQueue`, startup and one drain step, as methods that update the
  objects above in place.

## Model

| member | source | states |
|---|---|---|
| `Records.Settings.constructor` | supervisor.py:207-208 | the loaded settings hold the configured `processes` list and the message header and footer |
| `Records.EntriesMembers` | supervisor.py:228-230 | the entries the reconciliation visits are exactly the `(name, path)` pairs of the configured items |
| `Records.EntriesOfSingletons` | supervisor.py:236-239 | splitting entries into singleton dicts loses, duplicates and reorders nothing: flattening the singletons gives the entries back |
| `Sync.Queue.constructor` | supervisor.py:212-213 | a new queue is empty |
| `Sync.Queue.Put` | supervisor.py:189 | `put` appends the item at the back |
| `Sync.Queue.Get` | supervisor.py:246 | `get` returns the front item and leaves the rest in order |
| `Sync.Queue.Empty` | supervisor.py:254 | `empty` is true exactly when the queue holds no item |
| `Sync.Event.constructor` | supervisor.py:210 | a new event is clear |
| `Sync.Event.Set` | supervisor.py:73 | after `set` the flag is set |
| `Sync.Event.IsSet` | supervisor.py:72 | `is_set` reports the flag |
| `Reconciliation.MatchesFilter` | supervisor.py:231 | the filtered tuple holds exactly the running processes whose exe is the path, and its first element is the first such process of the snapshot |
| `Reconciliation.FirstMatchSpec` | supervisor.py:231-235 | an entry is adopted exactly when some running process has its path as exe, and then with the pid of the first such process in enumeration order |
| `Reconciliation.UnmatchedMembers` | supervisor.py:228-239 | an entry is left pending exactly when it is configured and no running process has its path, in both directions |
| `Reconciliation.AdoptionsMembers` | supervisor.py:230-235 | `(entry, pid)` is an adoption exactly when the entry is configured and `pid` is the first match of its path, in both directions |
| `Reconciliation.UnmatchedAppend` | supervisor.py:228-239 | the pending list of a concatenation is the pending list of the first part followed by that of the second, so configuration order is kept |
| `Reconciliation.AdoptionsAppend` | supervisor.py:228-235 | adoptions are made in configuration order |
| `Reconciliation.Conservation` | supervisor.py:228-239 | as multisets, the configured entries are exactly the pending entries plus the adopted ones: none is lost and none is duplicated |
| `Reconciliation.NeverBoth` | supervisor.py:232-239 | no entry is both pending and adopted |
| `Reconciliation.SamePathSamePid` | supervisor.py:231-235 | two adopted entries with the same path are bound to the same pid, whatever their names |
| `Reconciliation.UnmatchedExtremes` | supervisor.py:230-239 | with none of the paths running every entry stays pending, in order; with all of them running none does |
| `Supervisor.ReconcileFront` | supervisor.py:229-239 | one round pops the front item; the list becomes the rest followed by one singleton dict per unmatched entry of that item; each matched entry gets its own new adopting handler, distinct from the others, with its first-match pid |
| `Supervisor.Reconcile` | supervisor.py:228-239 | after a fixed number of rounds equal to the starting length, every original item has been handled once and no re-appended entry twice; `processes` is exactly the unmatched entries as singleton dicts, in configuration order; the new handlers adopt exactly the matched entries with their first-match pids, one separate handler object per matched entry, even for duplicate entries |
| `Supervisor.InitProcessQueue` | supervisor.py:187-189 | the queue becomes its old contents followed by the items of `processes`, in list order |
| `Supervisor.Startup` | supervisor.py:210-242 | after startup `processes` and the fresh restart queue both hold one singleton dict per unmatched configured entry, in configuration order; the event is clear; the adopting handlers are new, pairwise distinct objects, bound as in reconciliation |
| `Supervisor.DrainStep` | supervisor.py:246-255 | the front item leaves the restart queue; one new launching handler per entry, each a separate object, in dict order; the e-mail queue gains the entries' names in that order; the drain ends exactly when the queue is then empty |
| `Monitor.ProcessHandler.constructor` | supervisor.py:23-31 | a handler keeps its record, its launch strategy, the restart queue and the terminated event |
| `Monitor.ProcessHandler.Finish` | supervisor.py:71-74 | the restart queue gains exactly `{name: path}` at the back and the event ends set; the event is set and logged only when it was clear before |
| `Monitor.ExitsRequeueEach` | supervisor.py:71-73 | over any sequence of exits, the restart queue gains exactly one singleton per exit, in exit order; the flag ends set whenever there was an exit |
| `Notification.Body` | supervisor.py:154-161 | the body opens with the header and a newline and closes with the footer; with no queued line it is exactly header, newline, footer |
| `Notification.LinesAppend` | supervisor.py:156-160 | the drained text of two batches is the text of the first followed by the text of the second |
| `Notification.BodyRoundTrip` | supervisor.py:154-161 | when header, footer and lines contain no newline, cutting the body at newlines gives back the header, every queued line in FIFO order, and the footer |
| `Notification.EmailHandler.constructor` | supervisor.py:128-133 | the e-mail handler keeps the settings, its event and the line queue |
| `Notification.EmailHandler.SendMail` | supervisor.py:151-161 | the composed body is the header, a newline, each queued line followed by a newline in FIFO order, then the footer; the line queue is empty afterwards |

## Left out

- Threads, `Thread.start`/`join`, `Event.wait`, the `Lock` and the outer supervision loop with its sleeps (supervisor.py:136-149, 244-262). These coordinate concurrent tasks. Each step is modelled as one sequential state update. Lines racing into a queue while it is drained are not modelled.
- `Sync.Queue.Get`: a real `get` blocks until an item arrives. The model requires a non-empty queue instead, which is the state in which the blocking call returns.
- `subprocess.Popen`, `process.wait`, `communicate`, `psutil.Process` and `psutil.process_iter` (supervisor.py:82-85, 101-109, 116-124, 222-226) are OS calls. The running-process snapshot is an input sequence. It omits the processes whose exe access was denied, which is the only failure supervisor.py:225 catches. Any other `exe()` failure, such as a process that exits or turns zombie between `process_iter` and `exe()` (supervisor.py:224), raises `NoSuchProcess` or `ZombieProcess`, which aborts startup; that path is not modelled. A launched handler's pid comes from the OS and is not modelled.
- The dialog-clicking code that uses pyautogui and win32gui (supervisor.py:86-98) is screen automation tied to one external window.
- `internet_on` with its probe and unbounded recursive retry, and the SMTP connect, TLS, login and send (supervisor.py:167-185), are network I/O. `SendMail` returns `msq_body`, the text passed to `msg.set_content` (supervisor.py:162).
- `Notification.EmailHandler.SendMail`: the `EmailMessage` wrapped around the body is not modelled. `set_content` ends the delivered text with a newline when `msq_body` does not already end with one, so `BodyRoundTrip` describes `msq_body` and not the delivered text, which splits with one more empty part at the end. The Subject, From and To headers (supervisor.py:155, 163-164) and the two log lines (supervisor.py:165-166) are left out as well.
- `Supervisor.Startup`: the e-mail side of startup is not part of it. It does not create the e-mail event, the e-mail queue, the `Lock` or the `EmailHandler` thread (supervisor.py:211, 213-218). `DrainStep` and `SendMail` take the e-mail queue as a parameter instead.
- `EmailHandler.run` (supervisor.py:136-149) is left out: it waits on the event, probes the network, sends, then clears the event.
- Logging, prints and JSON loading (supervisor.py:194-208) are I/O. The settings object is constructed from its values.
- The check `type(item) is dict` (supervisor.py:247) always holds, because the restart queue only ever receives dicts. The queue's element type is a config item, so the check has no counterpart.
- Line 239 replaces an empty list with `[{name: path}]`, and line 237 appends to a non-empty one. In a value model both are the same append, so they are one branch. That the replacement is a new list object matters to no other code.
- `Supervisor.ReconcileFront`: `ProcessHandlerExist` calls `psutil.Process` (supervisor.py:116), which raises when the adopted pid has vanished. Nothing catches this, so `main` stops partway through the item. The handlers for that item's earlier entries already exist, the record is not re-enqueued, and supervision ends. The model assumes every adoption succeeds.
- `Supervisor.DrainStep`: `ProcessHandlerNew` calls `subprocess.Popen` (supervisor.py:82), which raises when the launch fails. Nothing catches this, so `main` stops partway through the item. The handlers and e-mail names for that item's earlier entries already exist, the record is not re-enqueued, and supervision ends. The model assumes every launch succeeds.
- `Notification.EmailHandler.SendMail`: an exception from the SMTP connect, TLS, login or send (supervisor.py:167-171) escapes `sendMail` and ends the e-mail thread without a log line. The model returns the composed body and has no failure path.
