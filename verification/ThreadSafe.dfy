// What every interleaving keeps: who owns a slot, who gives it back, and what it holds.
module ThreadSafe {
  import opened Collections
  import opened ThreadModel

  // A slot in use, and the thread it belongs to.
  predicate OwnedBy(sl: Slot, j: int, th: Thread) {
    && th.slot == Some(j) && th.released == 0
    && (sl.finished <==> th.clean) && (sl.finished ==> !sl.detached && sl.retval == th.ret)
    && (sl.cleanup == 0 <==> th.self.None?) && (sl.foreign ==> sl.detached)
    && (if sl.detached then th.kernel.Apart? else th.kernel.Joinable? || (th.kernel.Joined? && th.life.Exited?))
  }

  // It holds, for each key, what its thread last stored under this creation of the key.
  predicate Holds(sl: Slot, s: State) {
    forall i :: 0 <= i < |s.keys| && i < |sl.tsd| && s.keys[i].used ==> sl.tsd[i] == s.Value(sl.lv2, s.keys[i].gen)
  }

  predicate SlotOk(s: State, j: int)
    requires s.Has(j)
  {
    var sl := s.slots[j];
    && sl.handle == j + 1 && |sl.tsd| == KEYS
    && (sl.used ==> 0 <= sl.lv2 < |s.threads| && OwnedBy(sl, j, s.threads[sl.lv2]) && Holds(sl, s))
  }

  // What one thread's own fields agree on.
  predicate Local(th: Thread) {
    && th.released <= 1 && (th.released == 1 ==> !th.Alive() && !th.kernel.Joinable? && th.slot.Some?)
    && (th.slot.None? ==> th.kernel.Apart?)
    && (if th.Alive() then th.cookie == th.slot && !th.clean else th.cookie == None && th.joining.Free?)
    && (match th.life
        case Running => th.self == None
        case Tls => th.self == None || th.self == th.slot
        case Dtors => th.self == th.slot
        case Finished => th.clean
        case Exited => true)
    && (th.clean ==> th.self == th.slot)
    && (th.kernel.Joined? ==> th.life.Exited?)
  }

  predicate OwnSlot(s: State, u: int)
    requires 0 <= u < |s.threads|
  {
    var th := s.threads[u];
    th.slot.Some? && th.released == 0 ==> s.Has(th.slot.value) && s.slots[th.slot.value].used && s.slots[th.slot.value].lv2 == u
  }

  // A joined thread's slot is about to be released by the one thread that joined it.
  predicate Joins(s: State, u: int)
    requires 0 <= u < |s.threads|
  {
    var th := s.threads[u];
    && (th.kernel.Joined? ==> th.slot.Some?)
    && (th.kernel.Joined? && th.released == 0 ==>
          0 <= th.kernel.joiner < |s.threads| && s.threads[th.kernel.joiner].joining == Releasing(th.slot.value, u))
    && (th.joining.Releasing? ==>
          0 <= th.joining.id < |s.threads| && var o := s.threads[th.joining.id];
          o.slot == Some(th.joining.j) && o.kernel == Joined(u) && o.released == 0)
    && (th.joining.Waiting? ==>
          0 <= th.joining.id < |s.threads| && s.threads[th.joining.id].slot == Some(th.joining.j))
  }

  predicate ThreadOk(s: State, u: int)
    requires 0 <= u < |s.threads|
  {
    Local(s.threads[u]) && OwnSlot(s, u) && Joins(s, u)
  }

  ghost predicate KeysOk(s: State) {
    && |s.keys| == KEYS && 0 <= s.gens
    && (forall i :: 0 <= i < KEYS && s.keys[i].used ==> s.keys[i].gen < s.gens)
    && (forall i, k :: 0 <= i < k < KEYS && s.keys[i].used && s.keys[k].used ==> s.keys[i].gen != s.keys[k].gen)
  }

  // Nothing is stored for a thread without a slot, or under a key not yet created.
  ghost predicate ValuesOk(s: State) {
    forall t, g {:trigger (t, g) in s.values} :: (t, g) in s.values ==>
      0 <= t < |s.threads| && s.threads[t].slot.Some? && g < s.gens
  }

  ghost predicate Slots(s: State) { forall j :: 0 <= j < |s.slots| ==> SlotOk(s, j) }
  ghost predicate Threads(s: State) { forall u :: 0 <= u < |s.threads| ==> ThreadOk(s, u) }

  ghost predicate Inv(s: State) { KeysOk(s) && ValuesOk(s) && Slots(s) && Threads(s) }

  // ---- steps that touch one thread and its own slot ----

  // Only slot j and thread t differ, and what is stored for t; j is no other thread's slot.
  ghost predicate OnlyLocal(s: State, j: int, t: int, s': State) {
    && |s.slots| <= |s'.slots| && |s.threads| <= |s'.threads| && s'.keys == s.keys && s'.gens == s.gens
    && (forall k :: 0 <= k < |s.slots| && k != j ==> s'.slots[k] == s.slots[k])
    && (forall u :: 0 <= u < |s.threads| && u != t ==> s'.threads[u] == s.threads[u])
    && (forall u, g :: 0 <= u < |s.threads| && u != t ==> s'.Value(u, g) == s.Value(u, g))
    && (s.Has(j) && s.slots[j].used ==> s.slots[j].lv2 == t)
    && (0 <= t < |s.threads| ==> s.threads[t].slot == None || s.threads[t].slot == Some(j) || s.threads[t].released == 1)
  }

  lemma SlotSame(s: State, j: int, t: int, s': State, k: int)
    requires Inv(s) && OnlyLocal(s, j, t, s') && s.Has(k) && k != j
    ensures SlotOk(s', k)
  {
    hide Local, Joins, Nulls;
    assert SlotOk(s, k);
    var sl := s.slots[k];
    if sl.used {
      assert s.threads[sl.lv2].slot == Some(k);
      assert Holds(sl, s') by { assert Holds(sl, s); }
    }
  }

  lemma LocalKeeps(s: State, j: int, t: int, s': State)
    requires Inv(s) && OnlyLocal(s, j, t, s') && ValuesOk(s')
    requires s'.Has(j) ==> SlotOk(s', j)
    requires forall k :: |s.slots| <= k < |s'.slots| && k != j ==> SlotOk(s', k)
    requires 0 <= t < |s'.threads| <= |s.threads| + 1 && (|s'.threads| > |s.threads| ==> t == |s.threads|)
    requires ThreadOk(s', t) && forall u :: 0 <= u < |s.threads| && u != t ==> Joins(s', u)
    ensures Inv(s')
  {
    hide Local, Joins, SlotOk, ValuesOk;
    forall k | 0 <= k < |s'.slots|
      ensures SlotOk(s', k)
    {
      if k < |s.slots| && k != j { SlotSame(s, j, t, s', k); }
    }
    forall u | 0 <= u < |s'.threads| && u != t
      ensures ThreadOk(s', u)
    {
      assert ThreadOk(s, u);
      OwnSlotSame(s, j, t, s', u);
    }
  }

  lemma OwnSlotSame(s: State, j: int, t: int, s': State, u: int)
    requires Inv(s) && OnlyLocal(s, j, t, s') && 0 <= u < |s.threads| && u != t
    ensures OwnSlot(s', u)
  {
    hide Local, Joins, SlotOk;
    assert ThreadOk(s, u);
  }

  // Joins of others see nothing of a thread but its slot, its release and the kernel's state.
  lemma JoinsSame(s: State, t: int, s': State, u: int)
    requires Inv(s) && 0 <= t < |s.threads| <= |s'.threads| && 0 <= u < |s.threads| && u != t
    requires forall v :: 0 <= v < |s.threads| && v != t ==> s'.threads[v] == s.threads[v]
    requires SameLinks(s.threads[t], s'.threads[t])
    ensures Joins(s', u)
  {
    hide Local, SlotOk;
    assert ThreadOk(s, u);
  }

  predicate SameLinks(a: Thread, b: Thread) {
    a.slot == b.slot && a.released == b.released && a.kernel == b.kernel && a.joining == b.joining
  }

  // A thread's own change of its slot and itself.
  lemma OwnKeeps(s: State, j: int, t: int, s': State)
    requires Inv(s) && 0 <= t < |s.threads| && s'.gens == s.gens && s'.keys == s.keys && ValuesOk(s')
    requires |s'.slots| == |s.slots| && forall k :: 0 <= k < |s.slots| && k != j ==> s'.slots[k] == s.slots[k]
    requires |s'.threads| == |s.threads| && forall u :: 0 <= u < |s.threads| && u != t ==> s'.threads[u] == s.threads[u]
    requires forall u, g :: 0 <= u < |s.threads| && u != t ==> s'.Value(u, g) == s.Value(u, g)
    requires SameLinks(s.threads[t], s'.threads[t]) && Local(s'.threads[t])
    requires s.threads[t].slot == Some(j) || (j == -1 && (s.threads[t].slot == None || s.threads[t].released == 1))
    requires s.Has(j) ==> SlotOk(s', j) && s'.slots[j].used == s.slots[j].used && s'.slots[j].lv2 == s.slots[j].lv2
    requires s.Has(j) && s.slots[j].used ==> s.slots[j].lv2 == t
    ensures Inv(s')
  {
    hide Local, SlotOk, ValuesOk;
    assert ThreadOk(s, t);
    forall u | 0 <= u < |s.threads| && u != t
      ensures Joins(s', u)
    {
      JoinsSame(s, t, s', u);
    }
    LocalKeeps(s, j, t, s');
  }

  // ---- the end of a thread ----

  lemma InvAt(s: State, t: int)
    requires Inv(s) && 0 <= t < |s.threads|
    ensures ThreadOk(s, t) && ValuesOk(s) && KeysOk(s)
    ensures s.threads[t].slot.Some? && s.threads[t].released == 0 ==>
              var j := s.threads[t].slot.value; s.Has(j) && SlotOk(s, j) && s.slots[j].used && s.slots[j].lv2 == t
    ensures forall j :: s.Has(j) ==> SlotOk(s, j)
  {
  }

  function Own(s: State, t: int): int
    requires 0 <= t < |s.threads|
  {
    var th := s.threads[t];
    if th.slot.Some? && th.released == 0 then th.slot.value else -1
  }

  lemma EndKeeps(s: State, t: int, ret: int, s': State)
    requires Inv(s) && (ExitStep(s, t, ret, s') || AdoptStep(s, t, s') || KernelExitStep(s, t, s'))
    ensures Inv(s')
  {
    hide Inv, Joins, ValuesOk, KeysOk;
    InvAt(s, t);
    assert ValuesOk(s') by { ValuesSame(s, s'); }
    assert s.threads[t].slot.Some? && s.threads[t].released == 0 ==> Holds(s.slots[Own(s, t)], s');
    OwnKeeps(s, Own(s, t), t, s');
  }

  lemma ValuesSame(s: State, s': State)
    requires ValuesOk(s) && s'.values == s.values && s'.gens >= s.gens && |s.threads| <= |s'.threads|
    requires forall u :: 0 <= u < |s.threads| ==> s.threads[u].slot.Some? ==> s'.threads[u].slot.Some?
    ensures ValuesOk(s')
  {
  }

  lemma DestructKeeps(s: State, t: int, i: int, s': State)
    requires Inv(s) && DestructStep(s, t, i, s')
    ensures Inv(s')
  {
    hide Inv, Joins, ValuesOk;
    InvAt(s, t);
    var j := Own(s, t);
    StoredKeeps(s, t, j, i, NULL);
    OwnKeeps(s, j, t, s');
  }

  // Storing v under key i in the thread's slot, and in what is stored.
  lemma StoredKeeps(s: State, t: int, j: int, i: int, v: int)
    requires KeysOk(s) && ValuesOk(s) && 0 <= t < |s.threads| && s.threads[t].slot.Some? && s.Has(j) && SlotOk(s, j)
    requires s.slots[j].lv2 == t && 0 <= i < |s.keys| && s.keys[i].used
    ensures var s' := s.WithSlot(j, s.slots[j].(tsd := SetAt(s.slots[j].tsd, i, v))).(values := s.values[(t, s.keys[i].gen) := v]);
            SlotOk(s', j) && ValuesOk(s') && forall u, g :: u != t ==> s'.Value(u, g) == s.Value(u, g)
  {
  }

  lemma FinishKeeps(s: State, t: int, s': State)
    requires Inv(s) && FinishStep(s, t, s')
    ensures Inv(s')
  {
    hide Inv, Joins, ValuesOk, KeysOk;
    InvAt(s, t);
    assert ValuesOk(s') by { ValuesSame(s, s'); }
    var j := Own(s, t);
    if s.threads[t].slot.Some? {
      assert Holds(s.slots[j], s);
      assert Holds(s'.slots[j], s');
    }
    if s.threads[t].slot.Some? && s.slots[j].detached {
      forall u | 0 <= u < |s.threads| && u != t
        ensures Joins(s', u)
      {
        ReleaseSeen(s, t, s', u);
      }
      assert Joins(s', t) by { ApartJoins(t, s'); }
      LocalKeeps(s, j, t, s');
    } else {
      OwnKeeps(s, j, t, s');
    }
  }

  // No other thread is about to release the slot of a thread that has not exited.
  lemma ReleaseSeen(s: State, t: int, s': State, u: int)
    requires Inv(s) && 0 <= t < |s.threads| && !s.threads[t].kernel.Joined? && |s'.threads| == |s.threads|
    requires forall v :: 0 <= v < |s.threads| && v != t ==> s'.threads[v] == s.threads[v]
    requires s'.threads[t].slot == s.threads[t].slot && s'.threads[t].joining == s.threads[t].joining
    requires 0 <= u < |s.threads| && u != t
    ensures Joins(s', u)
  {
    hide Local, SlotOk;
    assert ThreadOk(s, u);
  }

  lemma ApartJoins(t: int, s': State)
    requires 0 <= t < |s'.threads|
    requires s'.threads[t].joining.Free? && !s'.threads[t].kernel.Joined?
    ensures Joins(s', t)
  {
  }

  // ---- new slots ----

  lemma AllocatedIs(s: State)
    requires Slots(s)
    ensures var j := FirstFree(s.slots, 0); var slots := Allocated(s.slots);
            && |s.slots| <= |slots| && j < |slots| && slots[j] == Blank(j + 1)
            && (s.Has(j) ==> !s.slots[j].used)
            && (forall k :: 0 <= k < |s.slots| && k != j ==> slots[k] == s.slots[k])
            && (forall k :: |s.slots| <= k < |slots| ==> slots[k] == Blank(k + 1))
  {
    var j := FirstFree(s.slots, 0);
    if s.Has(j) { assert SlotOk(s, j); }
  }

  lemma UnusedOk(s: State, j: int)
    requires s.Has(j) && s.slots[j] == Blank(j + 1)
    ensures SlotOk(s, j)
  {
  }

  // A slot handed to a thread that has stored nothing.
  lemma NewOwned(s: State, j: int, t: int)
    requires s.Has(j) && s.slots[j].used && s.slots[j].handle == j + 1 && s.slots[j].lv2 == t && s.slots[j].tsd == Nulls()
    requires 0 <= t < |s.threads| && OwnedBy(s.slots[j], j, s.threads[t]) && forall g :: s.Value(t, g) == NULL
    ensures SlotOk(s, j)
  {
  }

  lemma NothingStored(s: State, t: int)
    requires ValuesOk(s) && (0 <= t < |s.threads| ==> s.threads[t].slot.None?)
    ensures forall g :: s.Value(t, g) == NULL
  {
    forall g
      ensures (t, g) !in s.values
    {
    }
  }

  lemma SelfKeeps(s: State, t: int)
    requires Inv(s) && s.Calls(t)
    ensures var (s', j) := SelfSlot(s, t);
            Inv(s') && s'.Calls(t) && s'.Has(j) && s'.threads[t].slot == Some(j) && s'.slots[j].used && s'.slots[j].lv2 == t
            && s'.keys == s.keys && s'.values == s.values
  {
    hide Inv, Joins, ValuesOk, KeysOk, Holds, Nulls, Allocated, FirstFree;
    InvAt(s, t);
    var (s', j) := SelfSlot(s, t);
    if s.threads[t].slot.None? {
      assert Slots(s) by { InvSlots(s); }
      AllocatedIs(s);
      NothingStored(s, t);
      assert ValuesOk(s') by { ValuesSame(s, s'); }
      NewOwned(s', j, t);
      forall k | |s.slots| <= k < |s'.slots| && k != j
        ensures SlotOk(s', k)
      {
        UnusedOk(s', k);
      }
      forall u | 0 <= u < |s.threads| && u != t
        ensures Joins(s', u)
      {
        NewSlotSeen(s, t, s', u);
      }
      ApartJoins(t, s');
      LocalKeeps(s, j, t, s');
    }
  }

  lemma InvSlots(s: State)
    requires Inv(s)
    ensures Slots(s)
  {
  }

  // Nobody waits for a thread that had no slot.
  lemma NewSlotSeen(s: State, t: int, s': State, u: int)
    requires Inv(s) && 0 <= t < |s.threads| && s.threads[t].slot.None? && |s.threads| <= |s'.threads|
    requires forall v :: 0 <= v < |s.threads| && v != t ==> s'.threads[v] == s.threads[v]
    requires s'.threads[t].joining == s.threads[t].joining
    requires 0 <= u < |s.threads| && u != t
    ensures Joins(s', u)
  {
    hide Local, SlotOk;
    assert ThreadOk(s, u);
  }

  lemma CreateKeeps(s: State, t: int, detached: bool, ok: bool, s': State)
    requires Inv(s) && CreateStep(s, t, detached, ok, s')
    ensures Inv(s')
  {
    hide Inv, Joins, ValuesOk, KeysOk, Holds, Nulls, Allocated, FirstFree;
    InvAt(s, t);
    assert Slots(s) by { InvSlots(s); }
    AllocatedIs(s);
    var j := FirstFree(s.slots, 0);
    assert ValuesOk(s') by { ValuesSame(s, s'); }
    if ok {
      NothingStored(s, |s.threads|);
      assert forall g :: s'.Value(|s.threads|, g) == NULL;
      NewOwned(s', j, |s.threads|);
      ApartJoins(|s.threads|, s');
    } else {
      UnusedOk(s', j);
    }
    forall k | |s.slots| <= k < |s'.slots| && k != j
      ensures SlotOk(s', k)
    {
      UnusedOk(s', k);
    }
    forall u | 0 <= u < |s.threads|
      ensures Joins(s', u)
    {
      MoreThreads(s, s', u);
    }
    var who := if ok then |s.threads| else t;
    if ok {
      LocalKeeps(s, j, who, s');
    } else {
      BlankKeeps(s, j, s');
    }
  }

  lemma MoreThreads(s: State, s': State, u: int)
    requires Inv(s) && |s.threads| <= |s'.threads| && s'.threads[..|s.threads|] == s.threads && 0 <= u < |s.threads|
    ensures Joins(s', u)
  {
    hide Local, SlotOk;
    assert ThreadOk(s, u);
    assert forall v :: 0 <= v < |s.threads| ==> s'.threads[..|s.threads|][v] == s.threads[v];
  }

  // A slot cleared and not used, as after a creation the kernel refuses.
  lemma BlankKeeps(s: State, j: int, s': State)
    requires Inv(s) && |s.slots| <= |s'.slots| && s' == s.(slots := s'.slots)
    requires forall k :: 0 <= k < |s.slots| && k != j ==> s'.slots[k] == s.slots[k]
    requires s.Has(j) ==> !s.slots[j].used
    requires forall k :: |s.slots| <= k < |s'.slots| || k == j ==> s'.Has(k) ==> SlotOk(s', k)
    ensures Inv(s')
  {
    hide Local, Nulls;
    forall k | 0 <= k < |s.slots| && k != j
      ensures SlotOk(s', k)
    {
      assert SlotOk(s, k);
    }
    forall u | 0 <= u < |s.threads|
      ensures ThreadOk(s', u)
    {
      assert ThreadOk(s, u);
    }
  }

  lemma RawCreateKeeps(s: State, s': State)
    requires Inv(s) && RawCreateStep(s, s')
    ensures Inv(s')
  {
    hide Inv, Joins, ValuesOk, KeysOk, SlotOk;
    var t := |s.threads|;
    assert ValuesOk(s') by { InvValues(s); ValuesSame(s, s'); }
    ApartJoins(t, s');
    forall u | 0 <= u < |s.threads|
      ensures Joins(s', u)
    {
      MoreThreads(s, s', u);
    }
    LocalKeeps(s, -1, t, s');
  }

  lemma InvValues(s: State)
    requires Inv(s)
    ensures ValuesOk(s)
  {
  }

  // ---- thread-specific data ----

  lemma SetKeeps(s: State, t: int, key: int, v: int, s': State)
    requires Inv(s) && SetStep(s, t, key, v, s')
    ensures Inv(s')
  {
    hide Inv, Joins, ValuesOk, SelfSlot;
    if InUse(s, key) {
      SelfKeeps(s, t);
      var (s1, j) := SelfSlot(s, t);
      InvAt(s1, t);
      StoredKeeps(s1, t, j, key - 1, v);
      OwnKeeps(s1, j, t, s');
    }
  }

  // pthread_getspecific answers with the thread's last value under this creation of the key,
  // and NULL when it has stored none.
  lemma GotIsStored(s: State, t: int, key: int)
    requires Inv(s) && s.Calls(t) && InUse(s, key)
    ensures Got(s, t, key) == s.Value(t, s.keys[key - 1].gen)
  {
    hide Inv, Joins, ValuesOk, SelfSlot;
    SelfKeeps(s, t);
    var (s1, j) := SelfSlot(s, t);
    InvAt(s1, t);
  }

  lemma KeyCreateKeeps(s: State, t: int, dtor: bool, s': State)
    requires Inv(s) && KeyCreateStep(s, t, dtor, s')
    ensures Inv(s')
  {
    hide Local, Joins, FirstFreeKey;
    var i := FirstFreeKey(s.keys, 0);
    if i < |s.keys| {
      forall j | 0 <= j < |s'.slots|
        ensures SlotOk(s', j)
      {
        assert SlotOk(s, j);
        if s.slots[j].used { ClearedHolds(s, j, i, s'); }
      }
      SameThreads(s, s');
    }
  }

  lemma ClearedHolds(s: State, j: int, i: int, s': State)
    requires KeysOk(s) && ValuesOk(s) && s.Has(j) && s'.Has(j) && Holds(s.slots[j], s) && |s.slots[j].tsd| == KEYS
    requires 0 <= i < KEYS && s'.values == s.values && |s'.keys| == KEYS && s'.keys[i].gen == s.gens
    requires forall k :: 0 <= k < KEYS && k != i ==> s'.keys[k] == s.keys[k]
    requires s'.slots[j] == s.slots[j].(tsd := SetAt(s.slots[j].tsd, i, NULL))
    ensures Holds(s'.slots[j], s')
  {
    assert (s.slots[j].lv2, s.gens) !in s.values;
  }

  lemma SameThreads(s: State, s': State)
    requires Threads(s) && s'.threads == s.threads && |s'.slots| == |s.slots|
    requires forall j :: 0 <= j < |s.slots| ==> s'.slots[j].used == s.slots[j].used && s'.slots[j].lv2 == s.slots[j].lv2
    ensures Threads(s')
  {
    hide Local;
    forall u | 0 <= u < |s.threads|
      ensures ThreadOk(s', u)
    {
      assert ThreadOk(s, u);
    }
  }

  lemma KeyDeleteKeeps(s: State, t: int, key: int, s': State)
    requires Inv(s) && KeyDeleteStep(s, t, key, s')
    ensures Inv(s')
  {
    hide Local, Joins, OwnedBy;
    forall j | 0 <= j < |s'.slots|
      ensures SlotOk(s', j)
    {
      assert SlotOk(s, j);
    }
    SameThreads(s, s');
  }

  // ---- joining and detaching ----

  // A thread that is not releasing a slot may come to wait for a thread, or stop waiting.
  lemma WaitKeeps(s: State, t: int, joining: Joining, s': State)
    requires Inv(s) && 0 <= t < |s.threads| && s.threads[t].Alive() && !s.threads[t].joining.Releasing?
    requires s' == s.WithThread(t, s.threads[t].(joining := joining)) && !joining.Releasing?
    requires joining.Waiting? ==> 0 <= joining.id < |s.threads| && s.threads[joining.id].slot == Some(joining.j)
    ensures Inv(s')
  {
    hide Inv, Joins, ValuesOk, KeysOk, SlotOk;
    InvAt(s, t);
    var j := Own(s, t);
    assert ValuesOk(s') by { ValuesSame(s, s'); }
    forall u | 0 <= u < |s.threads|
      ensures Joins(s', u)
    {
      WaitSeen(s, t, joining, s', u);
    }
    if s.Has(j) { WaiterSlot(s, t, s', j); }
    LocalKeeps(s, j, t, s');
  }

  lemma WaitSeen(s: State, t: int, joining: Joining, s': State, u: int)
    requires Inv(s) && 0 <= t < |s.threads| && !s.threads[t].joining.Releasing?
    requires s' == s.WithThread(t, s.threads[t].(joining := joining)) && !joining.Releasing?
    requires joining.Waiting? ==> 0 <= joining.id < |s.threads| && s.threads[joining.id].slot == Some(joining.j)
    requires 0 <= u < |s.threads|
    ensures Joins(s', u)
  {
    hide Local, SlotOk;
    assert ThreadOk(s, u);
  }

  lemma WaiterSlot(s: State, t: int, s': State, j: int)
    requires 0 <= t < |s.threads| == |s'.threads| && s.Has(j) && SlotOk(s, j)
    requires s' == s.WithThread(t, s.threads[t].(joining := s'.threads[t].joining))
    ensures SlotOk(s', j)
  {
    assert Holds(s.slots[j], s) ==> Holds(s'.slots[j], s');
  }

  lemma JoinLookKeeps(s: State, t: int, handle: int, s': State)
    requires Inv(s) && JoinLookStep(s, t, handle, s')
    ensures Inv(s')
  {
    hide Inv, Joins, ValuesOk, KeysOk, Holds;
    InvAt(s, t);
    if s' != s {
      assert s.Has(SlotOf(s.slots, handle).value);
      WaitKeeps(s, t, s'.threads[t].joining, s');
    }
  }

  lemma JoinWaitKeeps(s: State, t: int, s': State)
    requires Inv(s) && JoinWaitStep(s, t, s')
    ensures Inv(s')
  {
    hide Inv, Joins, ValuesOk, KeysOk, Holds, SlotOk, Local;
    var th := s.threads[t];
    var id := th.joining.id;
    if 0 <= id < |s.threads| && s.threads[id].kernel.Joinable? {
      JoinedKeeps(s, t, id, s');
    } else {
      WaitKeeps(s, t, Free, s');
    }
  }

  // The kernel hands an exited thread to the one caller that joins it.
  lemma JoinedKeeps(s: State, t: int, id: int, s': State)
    requires Inv(s) && JoinWaitStep(s, t, s') && id == s.threads[t].joining.id
    requires 0 <= id < |s.threads| && s.threads[id].kernel.Joinable?
    ensures Inv(s')
  {
    hide ValuesOk, KeysOk, Holds;
    KeysSame(s, s');
    assert ThreadOk(s, t) && ThreadOk(s, id);
    assert id != t;
    assert ValuesOk(s') by { ValuesSame(s, s'); }
    forall j | 0 <= j < |s'.slots|
      ensures SlotOk(s', j)
    {
      assert SlotOk(s, j);
      assert Holds(s.slots[j], s) ==> Holds(s'.slots[j], s') by { HoldsSame(s, s', s.slots[j]); }
    }
    forall u | 0 <= u < |s'.threads|
      ensures ThreadOk(s', u)
    {
      JoinedThread(s, t, id, s', u);
    }
  }

  lemma KeysSame(s: State, s': State)
    requires KeysOk(s) && s'.keys == s.keys && s'.gens == s.gens
    ensures KeysOk(s')
  {
  }

  lemma HoldsSame(s: State, s': State, sl: Slot)
    requires s'.keys == s.keys && s'.values == s.values
    ensures Holds(sl, s') <==> Holds(sl, s)
  {
  }

  lemma JoinedThread(s: State, t: int, id: int, s': State, u: int)
    requires Inv(s) && JoinWaitStep(s, t, s') && id == s.threads[t].joining.id && id != t
    requires 0 <= id < |s.threads| && s.threads[id].kernel.Joinable? && 0 <= u < |s.threads|
    ensures ThreadOk(s', u)
  {
    hide SlotOk, ValuesOk, KeysOk;
    assert ThreadOk(s, u) && ThreadOk(s, t) && ThreadOk(s, id);
  }

  lemma JoinReleaseKeeps(s: State, t: int, s': State)
    requires Inv(s) && JoinReleaseStep(s, t, s')
    ensures Inv(s')
  {
    hide ValuesOk, KeysOk, Holds;
    var j, id := s.threads[t].joining.j, s.threads[t].joining.id;
    KeysSame(s, s');
    assert ThreadOk(s, t) && ThreadOk(s, id);
    assert id != t;
    assert ValuesOk(s') by { ValuesSame(s, s'); }
    forall k | 0 <= k < |s'.slots|
      ensures SlotOk(s', k)
    {
      assert SlotOk(s, k);
      HoldsSame(s, s', s.slots[k]);
    }
    forall u | 0 <= u < |s'.threads|
      ensures ThreadOk(s', u)
    {
      ReleasedThread(s, t, j, id, s', u);
    }
  }

  lemma ReleasedThread(s: State, t: int, j: int, id: int, s': State, u: int)
    requires Inv(s) && JoinReleaseStep(s, t, s') && s.threads[t].joining == Releasing(j, id) && id != t
    requires 0 <= u < |s.threads|
    ensures ThreadOk(s', u)
  {
    hide SlotOk, ValuesOk, KeysOk;
    assert ThreadOk(s, u) && ThreadOk(s, t) && ThreadOk(s, id);
  }

  // The slot is marked and given back at once if and only if its thread has finished; no other
  // slot changes.
  predicate Detached(s: State, j: int, handle: int, s': State)
    requires s.Has(j)
  {
    var id := s.slots[j].lv2;
    && |s'.slots| == |s.slots| && (forall k :: 0 <= k < |s.slots| && k != j ==> s'.slots[k] == s.slots[k])
    && (SlotOf(s'.slots, handle) == None <==> s.slots[j].finished)
    && (SlotOf(s'.slots, handle).Some? ==> s'.slots[j] == s.slots[j].(detached := true))
    && 0 <= id < |s.threads| == |s'.threads|
    && s'.threads[id].released == s.threads[id].released + if s.slots[j].finished then 1 else 0
  }

  lemma DetachIs(s: State, t: int, handle: int, s': State)
    requires DetachStep(s, t, handle, s')
    ensures match SlotOf(s.slots, handle)
      case None => s' == s
      case Some(j) => if s.slots[j].detached then s' == s else Detached(s, j, handle, s')
  {
  }

  lemma DetachKeeps(s: State, t: int, handle: int, s': State)
    requires Inv(s) && DetachStep(s, t, handle, s')
    ensures Inv(s')
    ensures match SlotOf(s.slots, handle)
      case None => s' == s
      case Some(j) => if s.slots[j].detached then s' == s else Detached(s, j, handle, s')
  {
    hide Inv, Joins, ValuesOk, KeysOk, Holds, Detached;
    DetachIs(s, t, handle, s');
    InvAt(s, t);
    if s' != s {
      var j := SlotOf(s.slots, handle).value;
      assert s.Has(j);
      var id := s.slots[j].lv2;
      InvAt(s, id);
      assert ValuesOk(s') by { ValuesSame(s, s'); }
      HoldsSame(s, s', s.slots[j]);
      HoldsMarked(s', s.slots[j], s'.slots[j]);
      NotJoined(s, id);
      forall u | 0 <= u < |s.threads| && u != id
        ensures Joins(s', u)
      {
        ReleaseSeen(s, id, s', u);
      }
      DetachedJoins(s, id, s');
      LocalKeeps(s, j, id, s');
    }
  }

  lemma HoldsMarked(s: State, a: Slot, b: Slot)
    requires a.tsd == b.tsd && a.lv2 == b.lv2
    ensures Holds(a, s) <==> Holds(b, s)
  {
  }

  lemma DetachedJoins(s: State, id: int, s': State)
    requires Inv(s) && 0 <= id < |s.threads| == |s'.threads|
    requires forall v :: 0 <= v < |s.threads| && v != id ==> s'.threads[v] == s.threads[v]
    requires s'.threads[id].slot == s.threads[id].slot && s'.threads[id].joining == s.threads[id].joining
    requires s'.threads[id].kernel.Apart? && !s.threads[id].kernel.Joined?
    ensures Joins(s', id)
  {
    hide Local, SlotOk;
    assert ThreadOk(s, id);
  }

  // With no join of the thread in progress, an unreleased one has not been joined.
  lemma NotJoined(s: State, id: int)
    requires Inv(s) && NoneJoins(s, id) && 0 <= id < |s.threads| && s.threads[id].released == 0
    ensures !s.threads[id].kernel.Joined?
  {
    hide Local, SlotOk;
    assert ThreadOk(s, id);
  }

  // ---- every run ----

  lemma CallKeeps(s: State, t: int, s': State)
    requires Inv(s) && CallStep(s, t, s')
    ensures Inv(s')
  {
    hide Inv, CreateStep, SelfStep, SetStep, KeyCreateStep, KeyDeleteStep, JoinLookStep, JoinWaitStep, JoinReleaseStep, DetachStep;
    if d, ok :| CreateStep(s, t, d, ok, s') { CreateKeeps(s, t, d, ok, s'); }
    else if SelfStep(s, t, s') { SelfStepKeeps(s, t, s'); }
    else if key, v :| SetStep(s, t, key, v, s') { SetKeeps(s, t, key, v, s'); }
    else if d :| KeyCreateStep(s, t, d, s') { KeyCreateKeeps(s, t, d, s'); }
    else if key :| KeyDeleteStep(s, t, key, s') { KeyDeleteKeeps(s, t, key, s'); }
    else if h :| JoinLookStep(s, t, h, s') { JoinLookKeeps(s, t, h, s'); }
    else if JoinWaitStep(s, t, s') { JoinWaitKeeps(s, t, s'); }
    else if JoinReleaseStep(s, t, s') { JoinReleaseKeeps(s, t, s'); }
    else { var h :| DetachStep(s, t, h, s'); DetachKeeps(s, t, h, s'); }
  }

  lemma SelfStepKeeps(s: State, t: int, s': State)
    requires Inv(s) && SelfStep(s, t, s')
    ensures Inv(s')
  {
    hide Inv;
    SelfKeeps(s, t);
  }

  lemma StepKeeps(s: State, s': State)
    requires Inv(s) && Step(s, s')
    ensures Inv(s')
  {
    hide Inv, RawCreateStep, CallStep, ExitStep, AdoptStep, DestructStep, FinishStep, KernelExitStep;
    if RawCreateStep(s, s') {
      RawCreateKeeps(s, s');
    } else {
      var t :| CallStep(s, t, s') || EndStep(s, t, s');
      if CallStep(s, t, s') { CallKeeps(s, t, s'); }
      else if ret :| ExitStep(s, t, ret, s') { EndKeeps(s, t, ret, s'); }
      else if AdoptStep(s, t, s') || KernelExitStep(s, t, s') { EndKeeps(s, t, NULL, s'); }
      else if FinishStep(s, t, s') { FinishKeeps(s, t, s'); }
      else { var i :| DestructStep(s, t, i, s'); DestructKeeps(s, t, i, s'); }
    }
  }

  lemma {:induction false} EveryState(states: seq<State>, k: nat)
    requires Run(states) && k < |states|
    ensures Inv(states[k])
  {
    hide Inv, Step;
    if k == 0 {
      InitialOk(states[0]);
    } else {
      EveryState(states, k - 1);
      assert Step(states[k - 1], states[k - 1 + 1]);
      StepKeeps(states[k - 1], states[k]);
    }
  }

  lemma InitialOk(s: State)
    requires Initial(s)
    ensures Inv(s)
  {
  }

  // A slot is released at most once, and by the end of its thread's cleanup at the latest
  // unless a join or a detach is still to come; until then it is the thread's own.
  lemma ReleasedOnce(states: seq<State>, k: nat, u: nat)
    requires Run(states) && k < |states| && u < |states[k].threads| && states[k].threads[u].slot.Some?
    ensures var s := states[k]; var th := s.threads[u]; var j := th.slot.value;
            && th.released <= 1
            && (th.clean && th.kernel.Apart? ==> th.released == 1)
            && (th.kernel.Joinable? ==> th.released == 0)
            && (th.kernel.Joined? && th.released == 0 ==>
                  0 <= th.kernel.joiner < |s.threads| && s.threads[th.kernel.joiner].joining == Releasing(j, u))
            && (th.released == 0 ==> s.Has(j) && s.slots[j].used && s.slots[j].lv2 == u && SlotOf(s.slots, s.slots[j].handle) == Some(j))
  {
    hide Inv, Run;
    EveryState(states, k);
    InvAt(states[k], u);
  }

  // Handles tell the slots apart, through every growth of the table.
  lemma HandlesInvert(states: seq<State>, k: nat, j: nat)
    requires Run(states) && k < |states| && j < |states[k].slots|
    ensures var slots := states[k].slots;
            && (slots[j].used ==> SlotOf(slots, slots[j].handle) == Some(j))
            && (!slots[j].used ==> SlotOf(slots, slots[j].handle) == None)
            && forall i :: 0 <= i < |slots| && i != j ==> slots[i].handle != slots[j].handle
  {
    hide Inv, Run;
    EveryState(states, k);
    var s := states[k];
    InvSlots(s);
    assert SlotOk(s, j);
    forall i | 0 <= i < |s.slots| && i != j
      ensures s.slots[i].handle != s.slots[j].handle
    {
      assert SlotOk(s, i);
    }
  }

  // A join releases the slot of the thread it waited for, and takes that thread's value.
  lemma JoinTakesItsOwn(states: seq<State>, k: nat, u: nat)
    requires Run(states) && k < |states| && u < |states[k].threads| && states[k].threads[u].joining.Releasing?
    ensures var s := states[k]; var j := s.threads[u].joining.j; var id := s.threads[u].joining.id;
            && s.Has(j) && s.slots[j].used && s.slots[j].lv2 == id && 0 <= id < |s.threads| && s.threads[id].life.Exited?
            && s.threads[id].released == 0 && (s.threads[id].clean ==> s.slots[j].finished && s.slots[j].retval == s.threads[id].ret)
  {
    hide Inv, Run;
    EveryState(states, k);
    InvAt(states[k], u);
    InvAt(states[k], states[k].threads[u].joining.id);
  }

  // What a thread reads is what it last stored under the same creation of the key: NULL in a
  // thread that stored nothing, and for every thread right after a key's creation.
  lemma DataIsStored(states: seq<State>, k: nat, t: int, key: int)
    requires Run(states) && k < |states| && states[k].Calls(t)
    ensures Got(states[k], t, key) == if InUse(states[k], key) then states[k].Value(t, states[k].keys[key - 1].gen) else NULL
    ensures states[k].threads[t].slot.None? ==> Got(states[k], t, key) == NULL
  {
    hide Inv, Run;
    EveryState(states, k);
    InvAt(states[k], t);
    if InUse(states[k], key) {
      GotIsStored(states[k], t, key);
      if states[k].threads[t].slot.None? { NothingStored(states[k], t); }
    }
  }

  lemma NewKeyReadsNull(s: State, t: int, dtor: bool, s': State, u: int)
    requires Inv(s) && KeyCreateStep(s, t, dtor, s') && s' != s && s'.Calls(u)
    ensures Got(s', u, FirstFreeKey(s.keys, 0) + 1) == NULL
  {
    hide Inv, ValuesOk, Got;
    InvAt(s, t);
    KeyCreateKeeps(s, t, dtor, s');
    GotIsStored(s', u, FirstFreeKey(s.keys, 0) + 1);
    assert s'.Value(u, s.gens) == NULL by { NeverStored(s, u); }
  }

  lemma NeverStored(s: State, u: int)
    requires ValuesOk(s)
    ensures (u, s.gens) !in s.values
  {
  }
}
