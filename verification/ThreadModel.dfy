// The thread table of the POSIX threads shim: slots in chunks, handles, thread-specific data,
// and the life of a thread from its creation to the release of its slot.  Every section under
// the table lock is one step; any number of threads take steps in any order.
module ThreadModel {
  import opened Collections

  const CHUNK: int := 32
  const KEYS: int := 32
  const NULL: int := 0

  datatype Slot = Slot(used: bool, finished: bool, detached: bool, foreign: bool, cleanup: nat, handle: int,
                       lv2: int, retval: int, tsd: seq<int>)

  function Nulls(): seq<int> { seq(KEYS, _ => NULL) }

  // A cleared slot that keeps its handle.
  function Blank(handle: int): Slot { Slot(false, false, false, false, 0, handle, 0, NULL, Nulls()) }

  function NewChunk(first: int): seq<Slot> { seq(CHUNK, i => Blank(first + i)) }

  // ---- handles ----

  // A handle is a slot's number from 1; the slot of a handle, when in use.
  function SlotOf(slots: seq<Slot>, handle: int): Option<int> {
    if 1 <= handle <= |slots| && slots[handle - 1].used then Some(handle - 1) else None
  }

  // ---- allocation ----

  function FirstFree(slots: seq<Slot>, from: nat): (j: nat)
    requires from <= |slots|
    ensures from <= j <= |slots| && (j < |slots| ==> !slots[j].used)
    ensures forall k :: from <= k < j ==> slots[k].used
    decreases |slots| - from
  {
    if from == |slots| || !slots[from].used then from else FirstFree(slots, from + 1)
  }

  // The slots after an allocation, which hands out FirstFree.
  function Allocated(slots: seq<Slot>): seq<Slot> {
    var j := FirstFree(slots, 0);
    if j < |slots| then slots[j := Blank(slots[j].handle)] else slots + NewChunk(|slots| + 1)
  }

  // ---- keys ----

  // A key, and which creation of it this is.
  datatype Key = Key(used: bool, dtor: bool, gen: int)

  function FirstFreeKey(keys: seq<Key>, from: nat): (i: nat)
    requires from <= |keys|
    ensures from <= i <= |keys| && (i < |keys| ==> !keys[i].used)
    ensures forall k :: from <= k < i ==> keys[k].used
    decreases |keys| - from
  {
    if from == |keys| || !keys[from].used then from else FirstFreeKey(keys, from + 1)
  }

  function Cleared(slots: seq<Slot>, i: int): seq<Slot> {
    seq(|slots|, k requires 0 <= k < |slots| => slots[k].(tsd := SetAt(slots[k].tsd, i, NULL)))
  }

  function SetAt(tsd: seq<int>, i: int, v: int): seq<int> { if 0 <= i < |tsd| then tsd[i := v] else tsd }

  // ---- threads ----

  datatype Life = Running | Tls | Dtors | Finished | Exited
  datatype Kernel = Joinable | Apart | Joined(joiner: int)      // the kernel's own thread
  datatype Joining = Free | Waiting(j: int, id: int) | Releasing(j: int, id: int)

  // slot: the slot it was ever given; released: how often that has been given back.
  datatype Thread = Thread(life: Life, self: Option<int>, cookie: Option<int>, joining: Joining, kernel: Kernel,
                           ret: int, clean: bool, slot: Option<int>, released: nat)
  {
    predicate Alive() { life.Running? || life.Tls? || life.Dtors? }
  }

  // values: what each thread last stored under each creation of a key.
  datatype State = State(slots: seq<Slot>, keys: seq<Key>, gens: int, threads: seq<Thread>, values: map<(int, int), int>)
  {
    function Value(t: int, gen: int): int { if (t, gen) in values then values[(t, gen)] else NULL }
    predicate Has(j: int) { 0 <= j < |slots| }
    predicate Acts(t: int) { 0 <= t < |threads| && threads[t].Alive() && threads[t].joining.Free? }
    // Past the thread_locals, user code runs only in destructors of a slot's data.
    predicate Calls(t: int) { Acts(t) && (threads[t].life.Dtors? ==> threads[t].self.Some?) }
    function WithSlot(j: int, slot: Slot): State
      requires Has(j)
    {
      this.(slots := slots[j := slot])
    }
    function WithThread(t: int, th: Thread): State
      requires 0 <= t < |threads|
    {
      this.(threads := threads[t := th])
    }
    function Give(t: int, j: int): State      // the slot goes back to the table
      requires 0 <= t < |threads| && Has(j)
    {
      WithSlot(j, slots[j].(used := false)).WithThread(t, threads[t].(released := threads[t].released + 1))
    }
  }

  // The calling thread's slot, a detached one of its own if it had none.
  function SelfSlot(s: State, t: int): (State, int)
    requires 0 <= t < |s.threads|
  {
    var th := s.threads[t];
    if th.cookie.Some? && s.Has(th.cookie.value) && s.slots[th.cookie.value].used then (s, th.cookie.value)
    else
      var j := FirstFree(s.slots, 0);
      var slots := Allocated(s.slots);
      (s.(slots := slots[j := slots[j].(used := true, foreign := true, detached := true, lv2 := t)])
       .WithThread(t, th.(cookie := Some(j), slot := Some(j))), j)
  }

  // ---- the steps ----

  // pthread_create, with the kernel's answer; the raw thread_create of the SDK.
  predicate CreateStep(s: State, t: int, detached: bool, ok: bool, s': State) {
    && s.Calls(t)
    && var j := FirstFree(s.slots, 0);
    && var slots := Allocated(s.slots);
    && s' == if ok then
         s.(slots := slots[j := slots[j].(used := true, detached := detached, lv2 := |s.threads|)],
            threads := s.threads + [Thread(Running, None, Some(j), Free, if detached then Apart else Joinable, NULL, false, Some(j), 0)])
       else s.(slots := slots)
  }

  predicate RawCreateStep(s: State, s': State) {
    s' == s.(threads := s.threads + [Thread(Running, None, None, Free, Apart, NULL, false, None, 0)])
  }

  // pthread_self, or pthread_getspecific on a key in use.
  predicate SelfStep(s: State, t: int, s': State) { s.Calls(t) && s' == SelfSlot(s, t).0 }

  predicate InUse(s: State, key: int) { 1 <= key <= |s.keys| && s.keys[key - 1].used }

  predicate SetStep(s: State, t: int, key: int, v: int, s': State) {
    && s.Calls(t)
    && if !InUse(s, key) then s' == s
       else
         && var (s1, j) := SelfSlot(s, t);
         && s1.Has(j)
         && s' == s1.WithSlot(j, s1.slots[j].(tsd := SetAt(s1.slots[j].tsd, key - 1, v)))
                  .(values := s.values[(t, s.keys[key - 1].gen) := v])
  }

  // pthread_getspecific's answer.
  function Got(s: State, t: int, key: int): int
    requires 0 <= t < |s.threads|
  {
    if !InUse(s, key) then NULL
    else
      var (s1, j) := SelfSlot(s, t);
      if s1.Has(j) && key - 1 < |s1.slots[j].tsd| then s1.slots[j].tsd[key - 1] else NULL
  }

  predicate KeyCreateStep(s: State, t: int, dtor: bool, s': State) {
    && s.Calls(t)
    && var i := FirstFreeKey(s.keys, 0);
    && s' == if i == |s.keys| then s
             else s.(keys := s.keys[i := Key(true, dtor, s.gens)], gens := s.gens + 1, slots := Cleared(s.slots, i))
  }

  predicate KeyDeleteStep(s: State, t: int, key: int, s': State) {
    && s.Calls(t)
    && s' == if !InUse(s, key) then s else s.(keys := s.keys[key - 1 := s.keys[key - 1].(used := false, dtor := false)])
  }

  // pthread_join: the look-up, the kernel's wait, the release.  A kernel thread is joined once.
  predicate JoinLookStep(s: State, t: int, handle: int, s': State) {
    && s.Calls(t)
    && s' == match SlotOf(s.slots, handle)
             case Some(j) =>
               if s.slots[j].foreign || s.slots[j].detached then s
               else s.WithThread(t, s.threads[t].(joining := Waiting(j, s.slots[j].lv2)))
             case None => s
  }

  predicate JoinWaitStep(s: State, t: int, s': State) {
    && 0 <= t < |s.threads| && s.threads[t].Alive() && s.threads[t].joining.Waiting?
    && var th := s.threads[t];
    && var id := th.joining.id;
    && if 0 <= id < |s.threads| && s.threads[id].kernel.Joinable? then
         && s.threads[id].life.Exited?
         && s' == s.WithThread(id, s.threads[id].(kernel := Joined(t))).WithThread(t, th.(joining := Releasing(th.joining.j, id)))
       else s' == s.WithThread(t, th.(joining := Free))
  }

  predicate JoinReleaseStep(s: State, t: int, s': State) {
    && 0 <= t < |s.threads| && s.threads[t].Alive() && s.threads[t].joining.Releasing?
    && var th := s.threads[t];
    && s.Has(th.joining.j) && 0 <= th.joining.id < |s.threads|
    && s' == s.Give(th.joining.id, th.joining.j).WithThread(t, th.(joining := Free))
  }

  // pthread_detach, by a caller that no join of the same thread races.
  predicate DetachStep(s: State, t: int, handle: int, s': State) {
    && s.Calls(t)
    && match SlotOf(s.slots, handle)
       case None => s' == s
       case Some(j) =>
         var id := s.slots[j].lv2;
         if s.slots[j].detached then s' == s
            else
              && NoneJoins(s, id) && 0 <= id < |s.threads|
              && var s1 := s.WithSlot(j, s.slots[j].(detached := true)).WithThread(id, s.threads[id].(kernel := Apart));
              && s' == if s.slots[j].finished then s1.Give(id, j) else s1
  }

  predicate NoneJoins(s: State, id: int) {
    forall u :: 0 <= u < |s.threads| ==> s.threads[u].joining.Free? || s.threads[u].joining.id != id
  }

  // pt_thread_cleanup: the claim, the adoption of a slot first acquired in a thread_local's
  // destructor, one thread-specific destructor, and the end.
  predicate ExitStep(s: State, t: int, ret: int, s': State) {
    && s.Calls(t) && s.threads[t].life.Running?
    && var th := s.threads[t].(ret := ret);
    && match th.cookie
       case None => s' == s.WithThread(t, th.(life := Tls, self := None))
       case Some(j) =>
         s.Has(j)
         && s' == if s.slots[j].cleanup == 0 then
                    s.WithSlot(j, s.slots[j].(cleanup := 1)).WithThread(t, th.(life := Tls, self := Some(j)))
                  else s.WithThread(t, th.(life := Exited))
  }

  predicate AdoptStep(s: State, t: int, s': State) {
    && s.Calls(t) && s.threads[t].life.Tls?
    && var th := s.threads[t];
    && match th.cookie
       case Some(j) =>
         if th.self.None? then
           s.Has(j)
           && s' == if s.slots[j].cleanup == 0 then
                      s.WithSlot(j, s.slots[j].(cleanup := 1)).WithThread(t, th.(life := Dtors, self := Some(j)))
                    else s.WithThread(t, th.(life := Dtors))
         else s' == s.WithThread(t, th.(life := Dtors))
       case None => s' == s.WithThread(t, th.(life := Dtors))
  }

  // The value is taken out before its destructor gets it.
  predicate DestructStep(s: State, t: int, i: int, s': State) {
    && s.Calls(t) && s.threads[t].life.Dtors? && 0 <= i < |s.keys| && s.keys[i].used && s.keys[i].dtor
    && s.threads[t].self.Some?
    && var j := s.threads[t].self.value;
    && s.Has(j)
    && s' == s.WithSlot(j, s.slots[j].(tsd := SetAt(s.slots[j].tsd, i, NULL))).(values := s.values[(t, s.keys[i].gen) := NULL])
  }

  predicate FinishStep(s: State, t: int, s': State) {
    && s.Acts(t) && s.threads[t].life.Dtors?
    && var th := s.threads[t].(life := Finished, cookie := None, clean := true);
    && match th.self
       case None => s' == s.WithThread(t, th)
       case Some(j) =>
         s.Has(j)
         && var done := s.slots[j].(retval := th.ret, finished := true, cleanup := 2);
         && var s1 := s.WithSlot(j, done).WithThread(t, th);
         && s' == if done.detached then s1.Give(t, j) else s1
  }

  // The kernel's own exit: after the cleanup, or at any time by a route that goes round it.
  predicate KernelExitStep(s: State, t: int, s': State) {
    && 0 <= t < |s.threads| && !s.threads[t].life.Exited? && s.threads[t].joining.Free?
    && s' == s.WithThread(t, s.threads[t].(life := Exited, cookie := None))
  }

  ghost predicate CallStep(s: State, t: int, s': State) {
    || (exists detached, ok :: CreateStep(s, t, detached, ok, s'))
    || SelfStep(s, t, s') || (exists key, v :: SetStep(s, t, key, v, s'))
    || (exists dtor :: KeyCreateStep(s, t, dtor, s')) || (exists key :: KeyDeleteStep(s, t, key, s'))
    || (exists handle :: JoinLookStep(s, t, handle, s')) || JoinWaitStep(s, t, s') || JoinReleaseStep(s, t, s')
    || (exists handle :: DetachStep(s, t, handle, s'))
  }

  ghost predicate EndStep(s: State, t: int, s': State) {
    || (exists ret :: ExitStep(s, t, ret, s')) || AdoptStep(s, t, s') || (exists i :: DestructStep(s, t, i, s'))
    || FinishStep(s, t, s') || KernelExitStep(s, t, s')
  }

  ghost predicate Step(s: State, s': State) {
    RawCreateStep(s, s') || exists t :: CallStep(s, t, s') || EndStep(s, t, s')
  }

  // No slots, no keys, one thread that has called nothing.
  predicate Initial(s: State) {
    && s.slots == [] && s.keys == seq(KEYS, _ => Key(false, false, -1)) && s.gens == 0 && s.values == map[]
    && s.threads == [Thread(Running, None, None, Free, Apart, NULL, false, None, 0)]
  }

  ghost predicate Run(states: seq<State>) {
    && states != [] && Initial(states[0])
    && forall k {:trigger states[k]} :: 0 <= k < |states| - 1 ==> Step(states[k], states[k + 1])
  }
}
