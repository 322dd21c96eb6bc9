// Condition variables of the POSIX threads shim: signals and broadcasts without a lock, beside
// the creation of a cond, pthread_cond_destroy, and pthread_mutex_destroy, which destroys the
// conds bound to its mutex.  Any number of threads take the atomic steps in any order.
module CondModel {
  import opened Collections

  // A pthread_cond_t's word: a kernel id, or one of the sentinels.
  datatype Value = Uninit | Static | Unbinding | Id(id: int)

  // A kernel cond: the pthread_cond_t it was created for, and whether it still exists.  Ids are
  // never used again.
  datatype Kernel = Kernel(cond: int, live: bool)

  datatype Binding = Binding(cond: int, id: int, mutex: int)

  // Where a thread is; start is the table when the unbinding took the lock.
  datatype Pc =
    | Idle
    | WakeLoad(c: int)                  // counted
    | WakeCall(c: int, id: int)         // id loaded, before the syscall
    | WakeLeave                         // about to be uncounted
    | Unbind(m: int, i: nat, start: seq<Binding>)
    | UnbindWait(m: int, i: nat, start: seq<Binding>, b: Binding, published: bool)
    | UnbindKill(m: int, i: nat, start: seq<Binding>, b: Binding, published: bool)
    | UnbindRestore(m: int, i: nat, start: seq<Binding>, b: Binding, published: bool)
    | UnbindClear(m: int, i: nat, start: seq<Binding>, b: Binding, published: bool)
    | UnbindDrop(m: int, i: nat, start: seq<Binding>, b: Binding)
    | UnbindDone(m: int, start: seq<Binding>, busy: bool)
    | Resolve(c: int, m: int)
    | ResolveAdd(c: int, m: int, id: int)
    | ResolvePublish(c: int, m: int, id: int)
    | ResolveDone
    | DestroyLoad(c: int)
    | DestroyClear(c: int)              // never created: no lock taken
    | DestroyLock(c: int)
    | DestroyKill(c: int)
    | DestroyRemove(c: int, id: int)
    | DestroyStore(c: int)
    | DestroyDone(c: int)
  {
    predicate Counted() { WakeLoad? || WakeCall? || WakeLeave? }
    predicate Holding() {
      || Unbind? || UnbindWait? || UnbindKill? || UnbindRestore? || UnbindClear? || UnbindDrop? || UnbindDone?
      || Resolve? || ResolveAdd? || ResolvePublish? || ResolveDone?
      || DestroyKill? || DestroyRemove? || DestroyStore? || DestroyDone?
    }
    predicate Wakes(x: int) { (WakeLoad? && c == x) || (WakeCall? && c == x) }
    predicate Destroys(x: int) {
      || (DestroyLoad? && c == x) || (DestroyClear? && c == x) || (DestroyLock? && c == x) || (DestroyKill? && c == x)
      || (DestroyRemove? && c == x) || (DestroyStore? && c == x) || (DestroyDone? && c == x)
    }
  }

  datatype State = State(values: map<int, Value>, bindings: seq<Binding>, inflight: int, holder: Option<int>,
                         kernel: seq<Kernel>, threads: seq<Pc>)
  {
    function Val(c: int): Value { if c in values then values[c] else Uninit }
    function Store(c: int, v: Value): State { this.(values := values[c := v]) }
    function Kill(id: int): State
      requires 0 <= id < |kernel|
    {
      this.(kernel := kernel[id := kernel[id].(live := false)])
    }
    function At(t: int, pc: Pc): State
      requires 0 <= t < |threads|
    {
      this.(threads := threads[t := pc])
    }
    predicate Live(id: int) { 0 <= id < |kernel| && kernel[id].live }
    predicate Made(id: int, c: int) { 0 <= id < |kernel| && kernel[id].cond == c }
    predicate NoneWakes(c: int) { forall u :: 0 <= u < |threads| ==> !threads[u].Wakes(c) }
    predicate NoneDestroys(c: int) { forall u :: 0 <= u < |threads| ==> !threads[u].Destroys(c) }
  }

  function SwapRemoved(bs: seq<Binding>, i: nat): seq<Binding>
    requires i < |bs|
  {
    bs[i := bs[|bs| - 1]][..|bs| - 1]
  }

  // Take the first binding with the id out, if there is one.
  function RemovedId(bs: seq<Binding>, id: int, i: nat): seq<Binding>
    requires i <= |bs|
    decreases |bs| - i
  {
    if i == |bs| then bs else if bs[i].id == id then SwapRemoved(bs, i) else RemovedId(bs, id, i + 1)
  }

  // ---- the steps ----

  // pt_cond_wake.  No signal runs beside pthread_cond_destroy of its own cond.
  ghost predicate WakeStep(s: State, t: int, s': State)
    requires 0 <= t < |s.threads|
  {
    match s.threads[t]
    case Idle => exists c :: s.NoneDestroys(c) && s' == s.(inflight := s.inflight + 1).At(t, WakeLoad(c))
    case WakeLoad(c) => s' == s.At(t, if s.Val(c).Id? then WakeCall(c, s.Val(c).id) else WakeLeave)
    case WakeCall(_, _) => s' == s.At(t, WakeLeave)
    case WakeLeave => s' == s.(inflight := s.inflight - 1).At(t, Idle)
    case _ => false
  }

  // pt_unbind_mutex_locked, from taking the table lock to releasing it.
  ghost predicate UnbindStep(s: State, t: int, s': State)
    requires 0 <= t < |s.threads|
  {
    match s.threads[t]
    case Idle => exists m :: s.holder == None && s' == s.(holder := Some(t)).At(t, Unbind(m, 0, s.bindings))
    case Unbind(m, i, start) =>
      if i >= |s.bindings| then s' == s.At(t, UnbindDone(m, start, false))
      else
        var b := s.bindings[i];
        if b.mutex != m then s' == s.At(t, Unbind(m, i + 1, start))
        else if s.Val(b.cond) == Id(b.id) then s' == s.Store(b.cond, Unbinding).At(t, UnbindWait(m, i, start, b, true))
        else s' == s.At(t, UnbindWait(m, i, start, b, false))
    case UnbindWait(m, i, start, b, published) =>
      s.inflight == 0 && s' == s.At(t, UnbindKill(m, i, start, b, published))
    case UnbindKill(m, i, start, b, published) =>      // the kernel refuses while threads wait
      || s' == s.At(t, UnbindRestore(m, i, start, b, published))
      || (s.Live(b.id) && s' == s.Kill(b.id).At(t, UnbindClear(m, i, start, b, published)))
    case UnbindRestore(m, i, start, b, published) =>
      s' == (if published then s.Store(b.cond, Id(b.id)) else s).At(t, UnbindDone(m, start, true))
    case UnbindClear(m, i, start, b, published) =>
      s' == (if published then s.Store(b.cond, Uninit) else s).At(t, UnbindDrop(m, i, start, b))
    case UnbindDrop(m, i, start, b) =>
      i < |s.bindings| && s' == s.(bindings := SwapRemoved(s.bindings, i)).At(t, Unbind(m, i, start))
    case UnbindDone(_, _, _) => s' == s.(holder := None).At(t, Idle)
    case _ => false
  }

  // pt_cond_resolve's slow path.
  ghost predicate ResolveStep(s: State, t: int, s': State)
    requires 0 <= t < |s.threads|
  {
    match s.threads[t]
    case Idle => exists c, m :: s.NoneDestroys(c) && s.holder == None && s' == s.(holder := Some(t)).At(t, Resolve(c, m))
    case Resolve(c, m) =>
      if s.Val(c).Uninit? || s.Val(c).Static? then
        s' == s.(kernel := s.kernel + [Kernel(c, true)]).At(t, ResolveAdd(c, m, |s.kernel|)) || s' == s.At(t, ResolveDone)
      else s' == s.At(t, ResolveDone)
    case ResolveAdd(c, m, id) =>       // without memory for the binding, the new cond goes again
      || s' == s.(bindings := s.bindings + [Binding(c, id, m)]).At(t, ResolvePublish(c, m, id))
      || (s.Live(id) && s' == s.Kill(id).At(t, ResolveDone))
    case ResolvePublish(c, m, id) => s' == s.Store(c, Id(id)).At(t, ResolveDone)
    case ResolveDone => s' == s.(holder := None).At(t, Idle)
    case _ => false
  }

  // pthread_cond_destroy: never beside a signal or another destruction of its cond.
  ghost predicate DestroyStep(s: State, t: int, s': State)
    requires 0 <= t < |s.threads|
  {
    match s.threads[t]
    case Idle => exists c :: s.NoneWakes(c) && s.NoneDestroys(c) && s' == s.At(t, DestroyLoad(c))
    case DestroyLoad(c) => s' == s.At(t, if s.Val(c).Uninit? || s.Val(c).Static? then DestroyClear(c) else DestroyLock(c))
    case DestroyClear(c) => s' == s.Store(c, Uninit).At(t, Idle)
    case DestroyLock(c) => s.holder == None && s' == s.(holder := Some(t)).At(t, DestroyKill(c))
    case DestroyKill(c) =>
      (match s.Val(c)
       case Id(id) => s' == s.At(t, DestroyDone(c)) || (s.Live(id) && s' == s.Kill(id).At(t, DestroyRemove(c, id)))
       case Unbinding => s' == s.At(t, DestroyDone(c))      // no such kernel id
       case _ => s' == s.At(t, DestroyStore(c)))
    case DestroyRemove(c, id) => s' == s.(bindings := RemovedId(s.bindings, id, 0)).At(t, DestroyStore(c))
    case DestroyStore(c) => s' == s.Store(c, Uninit).At(t, DestroyDone(c))
    case DestroyDone(c) => s' == s.(holder := None).At(t, Idle)
    case _ => false
  }

  // pthread_cond_init, on a cond no signal or destruction is using.
  ghost predicate InitStep(s: State, t: int, s': State)
    requires 0 <= t < |s.threads|
  {
    s.threads[t].Idle? && exists c :: s.NoneWakes(c) && s.NoneDestroys(c) && s' == s.Store(c, Static)
  }

  ghost predicate Acts(s: State, t: int, s': State)
    requires 0 <= t < |s.threads|
  {
    WakeStep(s, t, s') || UnbindStep(s, t, s') || ResolveStep(s, t, s') || DestroyStep(s, t, s') || InitStep(s, t, s')
  }

  ghost predicate Step(s: State, s': State) { exists t :: 0 <= t < |s.threads| && Acts(s, t, s') }

  // No thread has begun, and nothing has been created.
  predicate Initial(s: State) {
    && s.bindings == [] && s.inflight == 0 && s.holder == None && s.kernel == []
    && (forall c :: c in s.values ==> s.values[c].Uninit? || s.values[c].Static?)
    && (forall u :: 0 <= u < |s.threads| ==> s.threads[u].Idle?)
  }

  ghost predicate Run(states: seq<State>) {
    && states != [] && Initial(states[0])
    && forall k {:trigger states[k]} :: 0 <= k < |states| - 1 ==> Step(states[k], states[k + 1])
  }
}
