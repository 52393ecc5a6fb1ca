# go-toil group daemon, modelled in Dafny

go-toil runs a growing group of "toilers" (units of work with a blocking
`Toil()` method) together. At its centre is the group daemon in
`group_daemon.go`. Its request loop (`animate`) owns the registry of
toilers and a `toiling` flag, and it handles one request at a time:

- **length** replies with the registry size;
- **ping** replies;
- **register** appends a toiler, spawning it if the group is toiling;
- **toil** starts the group.

`spawn` adds one to a `sync.WaitGroup` and runs the toiler in a goroutine.
When that goroutine exits it subtracts one and notifies the toiler with at
most one of `Recovered(value)` (after a panic) or `Terminated()` (after a
normal return), if the toiler implements that method.

The project has two modules:

- `daemon_spec.dfy`, module `DaemonSpec`: the daemon as a state machine on
  values. `Handle` is one request (a `Step`: new state and reply) and
  `ExitTask` is one task exit (an `ExitStep`: new state and notice).
  `Serve` is the loop over a sequence of requests (a `Run`: final state
  and replies). `Inv` is the invariant of
  every reachable state. The lemmas prove the properties listed below.
- `group_daemon.dfy`, module `GroupDaemon`: class `GroupDaemon`. The
  registry, the flag, the spawned tasks and the wait-group counter are
  fields. There is one method per request kind, plus `Spawn`, `Exit` and
  the request loop `Animate`. `Length` and `Toil` return what they send
  back. `Ping` and `Register` always reply, so their contracts state the
  reply and the methods return nothing. Each method
  is proved against `Handle`, `ExitTask` or `Serve`, so the lemmas of
  `DaemonSpec` apply to the object.

Modelling choices:

- A toiler is an opaque id plus two flags, one for each optional interface
  (`toilTerminateder`, `toilRecovereder`). Registering the same toiler
  twice makes two entries.
- The outcome of the foreign `Toil()` call is an input to `Exit`:
  `Returned` or `Panicked(value)`.
- The wait group is reduced to its counter. The counter is an `int`, so
  "never negative" is proved (`OutstandingCount`), not assumed by a type.
- Each spawned goroutine is an entry in `tasks`, in spawn order, with
  status `Toiling` or `Exited(outcome, notice)`. A task can exit only while
  it is still toiling, because a goroutine exits once.
- A panic with a nil value (`panic(nil)`) is `NilValue`. The deferred
  handler tests `nil != recover()` (group_daemon.go:130). Under Go before
  1.21, `recover()` returns nil for `panic(nil)`, so such a task sends no
  notification: not `Recovered`, and not `Terminated`, because the code
  after `toiler.Toil()` is never reached. The model follows that reading.

Two consequences of the code as written:

- A toil request that arrives while the group is already toiling gets
  **no reply**, because the reply (group_daemon.go:89) is inside the
  `if !toiling` block. `Handle` returns `NoReply` and `GroupDaemon.Toil`
  returns `false`. A second `Group.Toil()` call (group.go:72-76) waits for
  that reply, so it blocks forever.
- The comment at group.go:80-83 says `Toil` panics if any toiler panics.
  But `spawn` sends a panic value nowhere except to the toiler's own
  `Recovered` method. group.go:29 also passes a channel to
  `newGroupDaemon`, which takes no arguments (group_daemon.go:18). The
  model has no failure signal.

## Model

| member | source | states |
|---|---|---|
| DaemonSpec.NoticeFor | group_daemon.go:127-180 | `Recovered(v)` is chosen if and only if `Toil` panicked with a non-nil `v` and the toiler implements `Recovered`, and it carries that `v`. `Terminated` is chosen if and only if `Toil` returned and the toiler implements `Terminated`. No outcome gets both. |
| DaemonSpec.Running | group_daemon.go:108-124 | The number of tasks still toiling is at most the number spawned. |
| DaemonSpec.Handle | group_daemon.go:68-91 | No request shrinks the registry or the spawn log, or turns the flag off. A request goes unanswered if and only if it is a toil request that arrives while toiling. |
| DaemonSpec.ExitTask | group_daemon.go:112-182 | An exit lowers the counter by exactly one. The chosen notice is `NoticeFor` of the task's toiler and outcome. Only the exiting task changes: it keeps its toiler and becomes `Exited` with that outcome and notice. Registry and flag are unchanged. |
| DaemonSpec.Serve | group_daemon.go:68-92 | The loop produces one reply slot per request served. |
| DaemonSpec.InitInv | group_daemon.go:64-66 | A fresh daemon (empty registry, not toiling, counter zero) satisfies the invariant. |
| DaemonSpec.HandleKeepsInv | group_daemon.go:70-90 | Every request keeps the invariant: counter = toiling tasks, spawn log = registry once toiling (empty before), every exited task recorded its correct notice. |
| DaemonSpec.RegisterKeepsInv | group_daemon.go:74-82 | Registering while toiling spawns that toiler and raises the counter, keeping spawn log = registry and counter = toiling tasks. |
| DaemonSpec.ToilKeepsInv | group_daemon.go:83-90 | The first toil request spawns the whole registry, so spawn log = registry and counter = registry size afterwards. |
| DaemonSpec.ExitKeepsInv | group_daemon.go:124-180 | A task exit keeps the invariant: the counter drops by one together with the number of toiling tasks, and the spawn log is unchanged. |
| DaemonSpec.OutstandingCount | group_daemon.go:108-124 | In every reachable state the wait-group counter is never negative and equals tasks spawned minus tasks exited. |
| DaemonSpec.RunningPlusFinished | group_daemon.go:108-124 | Every spawned task is either toiling or exited: toiling + exited = spawned. |
| DaemonSpec.ExitCounts | group_daemon.go:124 | Exiting one toiling task lowers the toiling count by exactly one and raises the exited count by exactly one. |
| DaemonSpec.SpawnAllFacts | group_daemon.go:86-88 | Spawning a list of toilers logs exactly that list, in order, as new toiling tasks. |
| DaemonSpec.SpawnsMatchRegistrations | group_daemon.go:77-88 | Once toiling, the number of spawns equals the number of registered toilers, and spawn i ran toiler i. Before toiling, nothing has been spawned. |
| DaemonSpec.QueriesChangeNothing | group_daemon.go:70-73 | A length request replies with the registry size. A ping replies. Neither changes any state. |
| DaemonSpec.RegisterEffect | group_daemon.go:74-82 | Register appends exactly one entry at the end and keeps the earlier ones (even for a duplicate toiler). It always replies and leaves the flag alone. It spawns nothing while idle, and exactly that toiler while toiling. |
| DaemonSpec.ToilEffect | group_daemon.go:83-90 | The first toil request sets the flag, spawns the registry in order, leaves the counter at the registry size and replies. A later one changes nothing and sends no reply. |
| DaemonSpec.ExitNotice | group_daemon.go:129-180 | After a panic only `Recovered` can fire, and only for a toiler that implements it, carrying the panic value. After a return only `Terminated` can fire, and only for a toiler that implements it. |
| DaemonSpec.ServeKeepsInv | group_daemon.go:68-92 | Any sequence of requests served from a valid state ends in a valid state. |
| DaemonSpec.ServeMonotone | group_daemon.go:68-92 | Over any sequence of requests the registry only grows (as a prefix), the flag never returns to false, and the spawn log only grows. |
| DaemonSpec.ServeRegistrations | group_daemon_test.go:80-99 | After N registrations on a fresh daemon the registry is exactly those N toilers, so length replies N. Nothing is spawned, and each registration was acknowledged. |
| DaemonSpec.RegisterOneMore | group_daemon.go:74-82 | On an idle daemon reached by registrations alone, one more registration appends its toiler, spawns nothing and is acknowledged. |
| DaemonSpec.RegisterThenToil | group_daemon_test.go:128-151 | After N registrations, a toil request replies and spawns exactly those N toilers in order, leaving N tasks outstanding. |
| DaemonSpec.ToilAgain | group_daemon.go:83-90 | After any sequence of requests that leaves the group toiling, one more toil request changes no state and its reply is `NoReply`. |
| DaemonSpec.RegisterThenToilTwice | group_daemon.go:83-90 | A second toil request after that spawns nothing more and gets no reply. |
| GroupDaemon.GroupDaemon.constructor | group_daemon.go:64-66 | A new daemon is in the initial state and valid. |
| GroupDaemon.GroupDaemon.Length | group_daemon.go:70-71 | Replies with the registry size and changes nothing. |
| GroupDaemon.GroupDaemon.Ping | group_daemon.go:72-73 | Is exactly `Handle` on a ping request: it always replies `DoneReply` and changes nothing. |
| GroupDaemon.GroupDaemon.Register | group_daemon.go:74-82 | The new fields are exactly those of `Handle` on a register request, whose reply is always `DoneReply`. Validity is kept. |
| GroupDaemon.GroupDaemon.Toil | group_daemon.go:83-90 | A loop spawns the registry in order. The new fields and whether a reply was sent are exactly those of `Handle` on a toil request, and validity is kept. |
| GroupDaemon.GroupDaemon.Spawn | group_daemon.go:97-112 | Adds one toiling task for the toiler at the end of the task list and raises the counter by one. |
| GroupDaemon.GroupDaemon.Exit | group_daemon.go:124-180 | Chooses the notice from the outcome and the capabilities, marks the task exited and lowers the counter, exactly as `ExitTask` does. Validity is kept. |
| GroupDaemon.GroupDaemon.Dispatch | group_daemon.go:69-91 | One `select` over the four request kinds behaves exactly as `Handle`. |
| GroupDaemon.GroupDaemon.Animate | group_daemon.go:68-92 | The request loop over a sequence of requests ends in the state, with the replies, given by `Serve`. Validity is kept. |

## Left out

- Goroutines, channels and `select` (group_daemon.go:32, 68-69, 112, 148, 177) are left out. Each request is a method call and each reply a result. A task's exit is a separate call. Detached notification goroutines are recorded as the chosen `Notice`.
- `sync.WaitGroup` blocking (`Wait`) is left out; only the counter is modelled. Go's wait group keeps the counter in 32 bits and panics when it goes negative. The model's counter is unbounded, and it is proved never to go negative.
- The calls to `Toil`, `Recovered` and `Terminated` are user code and are left out. The outcome of `Toil` is an input to `Exit`, and capabilities are flags on the toiler.
- The ordering inside one task exit is not modelled. The notification goroutine starts before the deferred `Done()`, but the model does both in one step.
- DaemonSpec.NoticeFor: a `panic(nil)` gives no notification, which is Go's behaviour before 1.21. From Go 1.21 on, `recover()` returns a `*runtime.PanicNilError` for it, so a capable toiler would get `Recovered`. The model does not capture that version dependence.
- `Waiter` and the channel accessors (group_daemon.go:38-58) are left out: they only hand out the wait group and the channels.
- group.go (the `Group` wrapper: `Len`, `Register`, `Toil` racing the wait group against a panic channel) is not part of this model. It is request/reply plumbing and a concurrency race. The panic channel is never written by the daemon.
- toiltest/recorder.go (a test double), toilerfunc.go (an adapter), toiler.go and hidden.go (interface declarations) and doc.go are not part of this model.
