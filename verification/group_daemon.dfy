/**
 The group daemon as an object whose fields its methods update in place.

 The Go daemon keeps the registry and the `toiling` flag as local variables
 of its request loop and the outstanding-task counter in a `sync.WaitGroup`.
 Here they are fields of one object; each request kind is a method whose
 reply is its result, and each task's exit is a call of `Exit`. Every method
 is proved against the state machine of `DaemonSpec`, so the lemmas proved
 there (the invariant, monotonicity, the counting facts) hold of the object.
 */
module GroupDaemon {
  import opened DaemonSpec

  class GroupDaemon {
    var toilers: seq<Toiler>
    var toiling: bool
    /** Every task spawned so far, in spawn order, with its status. */
    var tasks: seq<Task>
    /** The wait group's counter. */
    var outstanding: int

    ghost function State(): Daemon
      reads this
    {
      Daemon(toilers, toiling, tasks, outstanding)
    }

    ghost predicate Valid()
      reads this
    {
      Inv(State())
    }

    /** A new daemon: an empty registry, not toiling, no task. */
    constructor ()
      ensures Valid() && State() == Init()
    {
      toilers := [];
      toiling := false;
      tasks := [];
      outstanding := 0;
    }

    /** A length request: replies the number of registered toilers. */
    method Length() returns (n: nat)
      ensures Handle(State(), LengthRequest) == Step(State(), LengthReply(n))
    {
      n := |toilers|;
    }

    /** A ping request: always replied to, and nothing else happens. */
    method Ping()
      ensures Handle(State(), PingRequest) == Step(State(), DoneReply)
    {
    }

    /** A register request: appends the toiler, spawns it if the group is
        already toiling, then replies. */
    method Register(t: Toiler)
      requires Valid()
      modifies this
      ensures Valid()
      ensures Handle(old(State()), RegisterRequest(t)) == Step(State(), DoneReply)
    {
      ghost var d := State();
      toilers := toilers + [t];
      if toiling {
        Spawn(t);
      }
      HandleKeepsInv(d, RegisterRequest(t));
    }

    /** A toil request: the first one sets the flag, spawns every registered
        toiler in registry order and replies; any later one does nothing and
        sends no reply. */
    method Toil() returns (replied: bool)
      requires Valid()
      modifies this
      ensures Valid()
      ensures Handle(old(State()), ToilRequest) == Step(State(), if replied then DoneReply else NoReply)
    {
      ghost var d := State();
      if toiling {
        return false;
      }
      toiling := true;
      var i := 0;
      while i < |toilers|
        invariant 0 <= i <= |toilers|
        invariant toilers == d.toilers && toiling
        invariant tasks == d.tasks + SpawnAll(toilers[..i])
        invariant outstanding == d.outstanding + i
      {
        Spawn(toilers[i]);
        assert toilers[..i + 1][..i] == toilers[..i];
        i := i + 1;
      }
      assert toilers[..i] == toilers;
      assert State() == Handle(d, ToilRequest).next;
      replied := true;
      HandleKeepsInv(d, ToilRequest);
    }

    /** Starts one task for `t`: the counter goes up before the task runs. */
    method Spawn(t: Toiler)
      modifies this`tasks, this`outstanding
      ensures tasks == old(tasks) + [Task(t, Toiling)]
      ensures outstanding == old(outstanding) + 1
    {
      outstanding := outstanding + 1;
      tasks := tasks + [Task(t, Toiling)];
    }

    /** The task at index `i` exits with outcome `o`: it picks its
        notification from the outcome and the toiler's capabilities, and the
        counter goes down by one. */
    method Exit(i: nat, o: Outcome) returns (notice: Notice)
      requires Valid() && i < |tasks| && tasks[i].status.Toiling?
      modifies this`tasks, this`outstanding
      ensures Valid()
      ensures ExitTask(old(State()), i, o) == ExitStep(State(), notice)
    {
      ghost var d := State();
      var t := tasks[i].toiler;
      notice := NoNotice;
      match o {
        case Panicked(v) =>
          if v != NilValue && t.recovereder {
            notice := Recovered(v);
          }
        case Returned =>
          if t.terminateder {
            notice := Terminated;
          }
      }
      tasks := tasks[i := Task(t, Exited(o, notice))];
      outstanding := outstanding - 1;
      ExitKeepsInv(d, i, o);
    }

    /** The select of the request loop: one request of any kind. */
    method Dispatch(r: Request) returns (reply: Reply)
      requires Valid()
      modifies this
      ensures Valid()
      ensures Handle(old(State()), r) == Step(State(), reply)
    {
      match r
      case LengthRequest =>
        var n := Length();
        reply := LengthReply(n);
      case PingRequest =>
        Ping();
        reply := DoneReply;
      case RegisterRequest(t) =>
        Register(t);
        reply := DoneReply;
      case ToilRequest =>
        var replied := Toil();
        reply := if replied then DoneReply else NoReply;
    }

    /** The request loop over the requests it receives, in order. */
    method Animate(rs: seq<Request>) returns (replies: seq<Reply>)
      requires Valid()
      modifies this
      ensures Valid()
      ensures Serve(old(State()), rs) == Run(State(), replies)
    {
      ghost var d := State();
      replies := [];
      var k := 0;
      while k < |rs|
        invariant 0 <= k <= |rs|
        invariant Valid()
        invariant Serve(d, rs[..k]) == Run(State(), replies)
      {
        assert rs[..k + 1][..k] == rs[..k];
        var reply := Dispatch(rs[k]);
        replies := replies + [reply];
        k := k + 1;
      }
      assert rs[..k] == rs;
    }
  }
}
