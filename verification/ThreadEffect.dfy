// What the thread calls do, each seen by itself.
module ThreadEffect {
  import opened Collections
  import opened ThreadModel
  import opened ThreadSafe

  // ---- creation ----

  // Slots in use are left alone, and the table grows only when it is full.
  ghost predicate OthersKept(s: State, s': State) {
    && |s.slots| <= |s'.slots| && (forall k :: s.Has(k) && s.slots[k].used ==> s'.slots[k] == s.slots[k])
    && (|s'.slots| > |s.slots| ==> forall k :: s.Has(k) ==> s.slots[k].used)
    && s'.keys == s.keys && s'.values == s.values
  }

  lemma GrowsWhenFull(slots: seq<Slot>)
    ensures |Allocated(slots)| > |slots| ==> forall k :: 0 <= k < |slots| ==> slots[k].used
  {
  }

  // A new thread runs in a slot that was free, blank but for its flags, and found by its handle.
  lemma Created(s: State, t: int, detached: bool, s': State)
    requires Inv(s) && CreateStep(s, t, detached, true, s')
    ensures |s'.threads| == |s.threads| + 1 && s'.threads[..|s.threads|] == s.threads && OthersKept(s, s')
    ensures var id := |s.threads|; var th := s'.threads[id];
      && th.life.Running? && th.slot.Some? && th.cookie == th.slot && th.joining.Free?
      && th.kernel == (if detached then Apart else Joinable) && th.released == 0
      && var j := th.slot.value;
         && s'.Has(j) && (s.Has(j) ==> !s.slots[j].used) && SlotOf(s'.slots, s'.slots[j].handle) == Some(j)
         && s'.slots[j].used && s'.slots[j].lv2 == id && s'.slots[j].detached == detached
         && !s'.slots[j].finished && !s'.slots[j].foreign && s'.slots[j].cleanup == 0 && s'.slots[j].tsd == Nulls()
  {
    hide Inv, Nulls, FirstFree, Allocated;
    InvSlots(s);
    AllocatedIs(s);
    GrowsWhenFull(s.slots);
    CreateKeeps(s, t, detached, true, s');
    InvAt(s', |s.threads|);
  }

  // When the kernel makes no thread, no slot comes into use.
  lemma NotCreated(s: State, t: int, detached: bool, s': State)
    requires Inv(s) && CreateStep(s, t, detached, false, s')
    ensures s'.threads == s.threads && OthersKept(s, s')
    ensures forall k :: s'.Has(k) ==> s'.slots[k].used == (s.Has(k) && s.slots[k].used)
  {
    hide Inv, Nulls, FirstFree, Allocated;
    InvSlots(s);
    AllocatedIs(s);
    GrowsWhenFull(s.slots);
  }

  // The first pthread_self of a thread that was not made by pthread_create gives it a slot of its
  // own, detached; later ones change nothing.
  lemma SelfGiven(s: State, t: int, s': State)
    requires Inv(s) && SelfStep(s, t, s')
    ensures OthersKept(s, s') && |s'.threads| == |s.threads|
    ensures var th := s'.threads[t];
      && th.cookie.Some? && s'.Has(th.cookie.value) && s'.slots[th.cookie.value].used && s'.slots[th.cookie.value].lv2 == t
      && SlotOf(s'.slots, s'.slots[th.cookie.value].handle) == th.cookie
    ensures s.threads[t].cookie.Some? ==> s' == s
    ensures s.threads[t].cookie.None? ==>
      var sl := s'.slots[s'.threads[t].cookie.value]; sl.foreign && sl.detached && !sl.finished && sl.tsd == Nulls()
  {
    hide Inv, Nulls, FirstFree, Allocated;
    InvAt(s, t);
    InvSlots(s);
    AllocatedIs(s);
    GrowsWhenFull(s.slots);
    SelfKeeps(s, t);
    InvAt(s', t);
  }

  // ---- join ----

  // A join waits exactly for a thread that can be joined.
  lemma JoinLooks(s: State, t: int, handle: int, s': State)
    requires JoinLookStep(s, t, handle, s')
    ensures var j := SlotOf(s.slots, handle);
      if j.Some? && !s.slots[j.value].foreign && !s.slots[j.value].detached
      then s'.threads[t].joining == Waiting(j.value, s.slots[j.value].lv2) && s'.slots == s.slots
      else s' == s
  {
  }

  function Awaiting(s: State, t: int, j: int): State
    requires 0 <= t < |s.threads| && s.Has(j)
  {
    s.WithThread(t, s.threads[t].(joining := Waiting(j, s.slots[j].lv2)))
  }

  function Taking(s: State, t: int, j: int): State
    requires 0 <= t < |s.threads| && s.Has(j) && 0 <= s.slots[j].lv2 < |s.threads|
  {
    var id := s.slots[j].lv2;
    s.WithThread(id, s.threads[id].(kernel := Joined(t))).WithThread(t, s.threads[t].(joining := Releasing(j, id)))
  }

  // The slot is that of another thread, which has ended and is waited for by nobody.
  predicate CanJoin(s: State, t: int, j: int)
    requires s.Has(j)
  {
    var id := s.slots[j].lv2;
    && !s.slots[j].foreign && !s.slots[j].detached && id != t && 0 <= id < |s.threads|
    && s.threads[id].life.Exited? && s.threads[id].kernel == Joinable
  }

  // Joining a thread that has ended: three steps, after which the slot is free and its handle
  // leads nowhere; nobody else's slot changes.
  lemma JoinsEnded(s: State, t: int, handle: int)
    requires Inv(s) && s.Calls(t) && SlotOf(s.slots, handle).Some?
    requires CanJoin(s, t, SlotOf(s.slots, handle).value)
    ensures var j := SlotOf(s.slots, handle).value; var id := s.slots[j].lv2;
      && JoinLookStep(s, t, handle, Awaiting(s, t, j)) && JoinWaitStep(Awaiting(s, t, j), t, Taking(s, t, j))
      && exists s' :: JoinReleaseStep(Taking(s, t, j), t, s') && Ended(s, t, j, id, s') && SlotOf(s'.slots, handle) == None
  {
    hide Inv;
    var j := SlotOf(s.slots, handle).value;
    var id := s.slots[j].lv2;
    InvAt(s, t);
    var a, b := Awaiting(s, t, j), Taking(s, t, j);
    TwoThreads(s.threads, t, id, a.threads[t], s.threads[id].(kernel := Joined(t)), b.threads[t]);
    var s' := b.Give(id, j).WithThread(t, b.threads[t].(joining := Free));
    assert JoinReleaseStep(b, t, s') && Ended(s, t, j, id, s');
  }

  lemma TwoThreads<T>(ths: seq<T>, t: int, id: int, x: T, y: T, z: T)
    requires 0 <= t < |ths| && 0 <= id < |ths| && t != id
    ensures ths[t := x][id := y][t := z] == ths[id := y][t := z]
  {
  }

  ghost predicate Ended(s: State, t: int, j: int, id: int, s': State)
    requires s.Has(j) && 0 <= t < |s.threads| && 0 <= id < |s.threads|
  {
    && |s'.slots| == |s.slots| && !s'.slots[j].used && s'.slots[j].retval == s.slots[j].retval
    && (forall k :: s.Has(k) && k != j ==> s'.slots[k] == s.slots[k])
    && |s'.threads| == |s.threads| && s'.threads[t].joining.Free? && s'.threads[id].kernel == Joined(t)
    && s'.threads[id].released == s.threads[id].released + 1
  }

  // ---- exit ----

  // A thread that exits with a value goes through its cleanup: the slot keeps the value, and is
  // given back at once if the thread is detached.
  lemma ExitsWith(s: State, t: int, ret: int)
    requires Inv(s) && s.Calls(t) && s.threads[t].life.Running? && s.threads[t].slot.Some?
    requires s.Has(s.threads[t].slot.value) && s.slots[s.threads[t].slot.value].cleanup == 0
    ensures var j := s.threads[t].slot.value;
      exists a, b, s' :: ExitStep(s, t, ret, a) && AdoptStep(a, t, b) && FinishStep(b, t, s') && Left(s, t, j, ret, s')
  {
    hide Inv;
    InvAt(s, t);
    var j := s.threads[t].slot.value;
    var th := s.threads[t].(ret := ret, life := Tls, self := Some(j));
    var a := s.WithSlot(j, s.slots[j].(cleanup := 1)).WithThread(t, th);
    var b := a.WithThread(t, th.(life := Dtors));
    var done := b.slots[j].(retval := ret, finished := true, cleanup := 2);
    var f := b.WithSlot(j, done).WithThread(t, b.threads[t].(life := Finished, cookie := None, clean := true));
    var s' := if done.detached then f.Give(t, j) else f;
    assert ExitStep(s, t, ret, a);
    assert AdoptStep(a, t, b);
    assert FinishStep(b, t, s');
    assert Left(s, t, j, ret, s');
  }

  ghost predicate Left(s: State, t: int, j: int, ret: int, s': State)
    requires s.Has(j) && 0 <= t < |s.threads|
  {
    && |s'.slots| == |s.slots| && s'.slots[j].finished && s'.slots[j].retval == ret && s'.slots[j].used == !s.slots[j].detached
    && (forall k :: s.Has(k) && k != j ==> s'.slots[k] == s.slots[k])
    && |s'.threads| == |s.threads| && s'.threads[t].life.Finished? && s'.threads[t].clean && s'.threads[t].ret == ret
    && s'.threads[t].released == s.threads[t].released + (if s.slots[j].detached then 1 else 0)
    && (forall u :: 0 <= u < |s.threads| && u != t ==> s'.threads[u] == s.threads[u])
  }

  // ---- thread-specific data ----

  // What is stored is read back, by this thread and under this key only.
  lemma SetIsGot(s: State, t: int, key: int, v: int, s': State, u: int, k: int)
    requires Inv(s) && SetStep(s, t, key, v, s') && s.Calls(u) && s'.Calls(u)
    ensures InUse(s, key) && u == t && k == key ==> Got(s', u, k) == v
    ensures u != t || k != key ==> Got(s', u, k) == Got(s, u, k)
    ensures !InUse(s, key) ==> s' == s
  {
    hide Inv, Got, SelfSlot;
    SetKeeps(s, t, key, v, s');
    SetValues(s, t, key, v, s');
    InvAt(s, u);
    if InUse(s, k) {
      GotIsStored(s, u, k);
      GotIsStored(s', u, k);
      DifferentKeys(s, key, k);
    } else {
      Unused(s, u, k);
      Unused(s', u, k);
    }
  }

  lemma SetValues(s: State, t: int, key: int, v: int, s': State)
    requires SetStep(s, t, key, v, s')
    ensures s'.keys == s.keys
    ensures if InUse(s, key) then s'.values == s.values[(t, s.keys[key - 1].gen) := v] else s' == s
  {
  }

  lemma DifferentKeys(s: State, key: int, k: int)
    requires KeysOk(s) && InUse(s, k)
    ensures InUse(s, key) && key != k ==> s.keys[key - 1].gen != s.keys[k - 1].gen
  {
  }

  lemma Unused(s: State, u: int, k: int)
    requires 0 <= u < |s.threads| && !InUse(s, k)
    ensures Got(s, u, k) == NULL
  {
  }

  // A key is created in the first free place, unless there is none; deleted, it reads NULL and the
  // others are as before.
  lemma KeyCreated(s: State, t: int, dtor: bool, s': State)
    requires KeyCreateStep(s, t, dtor, s')
    ensures if forall i :: 0 <= i < |s.keys| ==> s.keys[i].used then s' == s
            else exists i :: 0 <= i < |s.keys| && !InUse(s, i + 1) && (forall k :: 1 <= k <= i ==> InUse(s, k)) && NewKey(s, i, dtor, s')
  {
    var i := FirstFreeKey(s.keys, 0);
    if i < |s.keys| {
      assert forall k :: 1 <= k <= i ==> InUse(s, k);
      assert !InUse(s, i + 1) && NewKey(s, i, dtor, s');
    }
  }

  ghost predicate NewKey(s: State, i: int, dtor: bool, s': State)
    requires 0 <= i < |s.keys|
  {
    && InUse(s', i + 1) && |s'.keys| == |s.keys| && s'.keys[i].dtor == dtor
    && (forall k :: 0 <= k < |s.keys| && k != i ==> s'.keys[k] == s.keys[k])
    && |s'.slots| == |s.slots| && s'.threads == s.threads
    && forall j :: s.Has(j) && i < |s.slots[j].tsd| ==> s'.slots[j] == s.slots[j].(tsd := s.slots[j].tsd[i := NULL])
  }

  lemma KeyDeleted(s: State, t: int, key: int, s': State, u: int)
    requires KeyDeleteStep(s, t, key, s') && 0 <= u < |s.threads|
    ensures !InUse(s', key) && Got(s', u, key) == NULL && (forall k :: k != key ==> (InUse(s', k) <==> InUse(s, k)))
    ensures s'.slots == s.slots && s'.threads == s.threads
  {
  }

  // A destructor's value is taken out before it runs, and only that.
  lemma Destructed(s: State, t: int, i: int, s': State)
    requires Inv(s) && DestructStep(s, t, i, s')
    ensures var j := s.threads[t].self.value;
      && i < |s.slots[j].tsd| && s'.slots[j].tsd == s.slots[j].tsd[i := NULL] && (forall k :: s.Has(k) && k != j ==> s'.slots[k] == s.slots[k])
      && s'.threads == s.threads && s'.keys == s.keys
  {
    hide Inv;
    InvAt(s, t);
  }

  // Any key's destructor gets its turn.
  lemma DestructorRuns(s: State, t: int, i: int) returns (s': State)
    requires s.Calls(t) && s.threads[t].life.Dtors? && s.threads[t].self.Some? && s.Has(s.threads[t].self.value)
    requires InUse(s, i + 1) && s.keys[i].dtor
    ensures DestructStep(s, t, i, s')
  {
    var j := s.threads[t].self.value;
    s' := s.WithSlot(j, s.slots[j].(tsd := SetAt(s.slots[j].tsd, i, NULL))).(values := s.values[(t, s.keys[i].gen) := NULL]);
  }

  // ---- runs ----

  // Every call a thread may make, and every stage of its end, is a step.
  lemma CallsAreSteps(s: State, t: int, s': State)
    requires 0 <= t < |s.threads|
    requires CallStep(s, t, s') || EndStep(s, t, s') || RawCreateStep(s, s')
    ensures Step(s, s')
  {
    hide CallStep, EndStep, RawCreateStep;
  }

  lemma CallsAre(s: State, t: int, s': State)
    ensures (forall detached, ok :: CreateStep(s, t, detached, ok, s') ==> CallStep(s, t, s'))
    ensures SelfStep(s, t, s') ==> CallStep(s, t, s')
    ensures forall key, v :: SetStep(s, t, key, v, s') ==> CallStep(s, t, s')
    ensures forall dtor :: KeyCreateStep(s, t, dtor, s') ==> CallStep(s, t, s')
    ensures forall key :: KeyDeleteStep(s, t, key, s') ==> CallStep(s, t, s')
    ensures forall handle :: JoinLookStep(s, t, handle, s') || DetachStep(s, t, handle, s') ==> CallStep(s, t, s')
    ensures JoinWaitStep(s, t, s') || JoinReleaseStep(s, t, s') ==> CallStep(s, t, s')
  {
    hide CreateStep, SelfStep, SetStep, KeyCreateStep, KeyDeleteStep, JoinLookStep, DetachStep, JoinWaitStep, JoinReleaseStep;
  }

  lemma EndsAre(s: State, t: int, s': State)
    ensures forall ret :: ExitStep(s, t, ret, s') ==> EndStep(s, t, s')
    ensures AdoptStep(s, t, s') || FinishStep(s, t, s') || KernelExitStep(s, t, s') ==> EndStep(s, t, s')
    ensures forall i :: DestructStep(s, t, i, s') ==> EndStep(s, t, s')
  {
    hide ExitStep, AdoptStep, FinishStep, KernelExitStep, DestructStep;
  }

  // Runs begin with a thread alone and go on by any step.
  lemma RunsGoOn(states: seq<State>, s: State)
    ensures Initial(s) ==> Run([s])
    ensures Run(states) && Step(states[|states| - 1], s) ==> Run(states + [s])
  {
    hide Step, Initial;
  }

  lemma Begins()
    ensures Initial(State([], seq(KEYS, _ => Key(false, false, -1)), 0, [Thread(Running, None, None, Free, Apart, NULL, false, None, 0)], map[]))
  {
  }
}
