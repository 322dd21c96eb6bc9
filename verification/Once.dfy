// pthread_once: any number of threads and controls, routines that call pthread_once on other
// controls, and routines that are left by an exception.
module Once {
  datatype Word = Idle | Running | Done

  // Where one call of pthread_once is.
  datatype Pc =
    | Load
    | Try                // the control was seen idle
    | Sleep
    | InRoutine
    | Publish            // the routine has returned
    | Abandon            // the routine is being unwound
    | Return0
  datatype Frame = Frame(c: int, pc: Pc) {
    predicate Active() { pc.InRoutine? || pc.Publish? || pc.Abandon? }
  }

  // holder: the call that took the control; completed: how many routines have returned.
  datatype State = State(words: map<int, Word>, holder: map<int, (int, int)>, completed: map<int, nat>,
                         threads: seq<seq<Frame>>)
  {
    function Word(c: int): Word { if c in words then words[c] else Idle }
    function Runs(c: int): nat { if c in completed then completed[c] else 0 }
    predicate Has(t: int, d: int) { 0 <= t < |threads| && 0 <= d < |threads[t]| }
    function Top(t: int): Frame
      requires 0 <= t < |threads| && threads[t] != []
    {
      threads[t][|threads[t]| - 1]
    }
    function To(t: int, pc: Pc): State       // the innermost call goes on to pc
      requires 0 <= t < |threads| && threads[t] != []
    {
      this.(threads := threads[t := threads[t][|threads[t]| - 1 := Top(t).(pc := pc)]])
    }
    function Pop(t: int): State
      requires 0 <= t < |threads| && threads[t] != []
    {
      this.(threads := threads[t := threads[t][..|threads[t]| - 1]])
    }
    function Set(c: int, w: Word): State { this.(words := words[c := w]) }
  }

  // A call by a thread outside any, or from inside a routine.
  predicate CallStep(s: State, t: int, c: int, s': State) {
    && 0 <= t < |s.threads| && (s.threads[t] == [] || s.Top(t).pc.InRoutine?)
    && s' == s.(threads := s.threads[t := s.threads[t] + [Frame(c, Load)]])
  }

  predicate ActStep(s: State, t: int, s': State) {
    && 0 <= t < |s.threads| && s.threads[t] != []
    && var f := s.Top(t);
    && var w := s.Word(f.c);
    && match f.pc
       case Load => s' == s.To(t, if w.Done? then Return0 else if w.Idle? then Try else Sleep)
       case Try =>           // compare and exchange
         s' == if w.Idle? then s.Set(f.c, Running).(holder := s.holder[f.c := (t, |s.threads[t]| - 1)]).To(t, InRoutine)
               else s.To(t, Sleep)
       case Sleep => s' == s.To(t, Load)
       case InRoutine =>     // it returns, or an exception leaves it
         || s' == s.(completed := s.completed[f.c := s.Runs(f.c) + 1]).To(t, Publish)
         || s' == s.To(t, Abandon)
       case Publish => s' == s.Set(f.c, Done).To(t, Return0)
       case Abandon => s' == s.Set(f.c, Idle).Pop(t)
       case Return0 => s' == s.Pop(t)
  }

  ghost predicate Step(s: State, s': State) {
    exists t :: ActStep(s, t, s') || exists c :: CallStep(s, t, c, s')
  }

  predicate Initial(s: State) {
    && (forall c :: c in s.words ==> s.words[c].Idle?) && s.holder == map[] && s.completed == map[]
    && forall t :: 0 <= t < |s.threads| ==> s.threads[t] == []
  }

  ghost predicate Run(states: seq<State>) {
    && states != [] && Initial(states[0])
    && forall k {:trigger states[k]} :: 0 <= k < |states| - 1 ==> Step(states[k], states[k + 1])
  }

  // ---- the invariant ----

  // The call at depth d of thread t is the one that holds its control.
  predicate FrameOk(s: State, t: int, d: int)
    requires s.Has(t, d)
  {
    var f := s.threads[t][d];
    && (f.Active() <==> s.Word(f.c).Running? && f.c in s.holder && s.holder[f.c] == (t, d))
    && (d < |s.threads[t]| - 1 ==> f.pc.InRoutine?)
    && (f.pc.Return0? ==> s.Word(f.c).Done?)
    && (f.Active() ==> s.Runs(f.c) == if f.pc.Publish? then 1 else 0)
  }

  // A running control is held by a call in progress; a done one has completed once.
  predicate ControlOk(s: State, c: int) {
    && (s.Word(c).Running? ==>
          c in s.holder && s.Has(s.holder[c].0, s.holder[c].1) && s.threads[s.holder[c].0][s.holder[c].1].c == c)
    && (s.Word(c).Idle? ==> s.Runs(c) == 0)
    && (s.Word(c).Done? ==> s.Runs(c) == 1)
  }

  ghost predicate Inv(s: State) {
    && (forall t, d :: s.Has(t, d) ==> FrameOk(s, t, d))
    && (forall c :: ControlOk(s, c))
  }

  lemma CallKeeps(s: State, t: int, c: int, s': State)
    requires Inv(s) && CallStep(s, t, c, s')
    ensures Inv(s')
  {
    forall u, d | s'.Has(u, d)
      ensures FrameOk(s', u, d)
    {
      if s.Has(u, d) { assert FrameOk(s, u, d); } else { assert ControlOk(s, c); }
    }
    forall x
      ensures ControlOk(s', x)
    {
      assert ControlOk(s, x);
    }
    assert FrameOk(s', t, |s.threads[t]|);
  }

  lemma QuietFrame(s: State, t: int, s': State, u: int, d: int)
    requires ActStep(s, t, s') && s'.Has(u, d)
    requires FrameOk(s, t, |s.threads[t]| - 1) && ControlOk(s, s.Top(t).c)
    requires s.Has(u, d) ==> FrameOk(s, u, d) && ControlOk(s, s.threads[u][d].c)
    requires !s.Top(t).Active() && !s.Top(t).pc.Try?
    ensures FrameOk(s', u, d)
  {
    assert u != t || d != |s.threads[t]| - 1 ==> s'.threads[u][d] == s.threads[u][d];
  }

  lemma QuietControl(s: State, t: int, s': State, c: int)
    requires ActStep(s, t, s') && FrameOk(s, t, |s.threads[t]| - 1) && ControlOk(s, c)
    requires !s.Top(t).Active() && !s.Top(t).pc.Try?
    ensures ControlOk(s', c)
  {
  }

  lemma TryFrame(s: State, t: int, s': State, u: int, d: int)
    requires ActStep(s, t, s') && s'.Has(u, d)
    requires FrameOk(s, t, |s.threads[t]| - 1) && ControlOk(s, s.Top(t).c)
    requires s.Has(u, d) ==> FrameOk(s, u, d) && ControlOk(s, s.threads[u][d].c)
    requires s.Top(t).pc.Try?
    ensures FrameOk(s', u, d)
  {
    assert u != t || d != |s.threads[t]| - 1 ==> s'.threads[u][d] == s.threads[u][d];
  }

  lemma TryControl(s: State, t: int, s': State, c: int)
    requires ActStep(s, t, s') && FrameOk(s, t, |s.threads[t]| - 1) && ControlOk(s, c)
    requires s.Top(t).pc.Try?
    ensures ControlOk(s', c)
  {
  }

  lemma RoutineFrame(s: State, t: int, s': State, u: int, d: int)
    requires ActStep(s, t, s') && s'.Has(u, d)
    requires FrameOk(s, t, |s.threads[t]| - 1) && ControlOk(s, s.Top(t).c)
    requires s.Has(u, d) ==> FrameOk(s, u, d) && ControlOk(s, s.threads[u][d].c)
    requires s.Top(t).pc.InRoutine?
    ensures FrameOk(s', u, d)
  {
    assert u != t || d != |s.threads[t]| - 1 ==> s'.threads[u][d] == s.threads[u][d];
  }

  lemma RoutineControl(s: State, t: int, s': State, c: int)
    requires ActStep(s, t, s') && FrameOk(s, t, |s.threads[t]| - 1) && ControlOk(s, c)
    requires s.Top(t).pc.InRoutine?
    ensures ControlOk(s', c)
  {
  }

  lemma EndFrame(s: State, t: int, s': State, u: int, d: int)
    requires ActStep(s, t, s') && s'.Has(u, d)
    requires FrameOk(s, t, |s.threads[t]| - 1) && ControlOk(s, s.Top(t).c)
    requires s.Has(u, d) ==> FrameOk(s, u, d) && ControlOk(s, s.threads[u][d].c)
    requires s.Top(t).pc.Publish? || s.Top(t).pc.Abandon?
    ensures FrameOk(s', u, d)
  {
    assert u != t || d != |s.threads[t]| - 1 ==> s'.threads[u][d] == s.threads[u][d];
  }

  lemma EndControl(s: State, t: int, s': State, c: int)
    requires ActStep(s, t, s') && FrameOk(s, t, |s.threads[t]| - 1) && ControlOk(s, c)
    requires s.Top(t).pc.Publish? || s.Top(t).pc.Abandon?
    ensures ControlOk(s', c)
  {
  }

  lemma ActKeeps(s: State, t: int, s': State)
    requires Inv(s) && ActStep(s, t, s')
    ensures Inv(s')
  {
    hide FrameOk, ControlOk;
    assert s.Has(t, |s.threads[t]| - 1);
    var pc := s.Top(t).pc;
    forall u, d | s'.Has(u, d)
      ensures FrameOk(s', u, d)
    {
      match pc
      case Try => TryFrame(s, t, s', u, d);
      case InRoutine => RoutineFrame(s, t, s', u, d);
      case Publish => EndFrame(s, t, s', u, d);
      case Abandon => EndFrame(s, t, s', u, d);
      case _ => QuietFrame(s, t, s', u, d);
    }
    forall c
      ensures ControlOk(s', c)
    {
      match pc
      case Try => TryControl(s, t, s', c);
      case InRoutine => RoutineControl(s, t, s', c);
      case Publish => EndControl(s, t, s', c);
      case Abandon => EndControl(s, t, s', c);
      case _ => QuietControl(s, t, s', c);
    }
  }

  lemma {:induction false} EveryState(states: seq<State>, k: nat)
    requires Run(states) && k < |states|
    ensures Inv(states[k])
  {
    hide ActStep, CallStep, FrameOk, ControlOk;
    if k == 0 {
      InitialOk(states[0]);
    } else {
      EveryState(states, k - 1);
      var s, s' := states[k - 1], states[k - 1 + 1];
      var t :| ActStep(s, t, s') || exists c :: CallStep(s, t, c, s');
      if ActStep(s, t, s') { ActKeeps(s, t, s'); } else { var c :| CallStep(s, t, c, s'); CallKeeps(s, t, c, s'); }
    }
  }

  lemma InitialOk(s: State)
    requires Initial(s)
    ensures Inv(s)
  {
  }

  // Routines of one control never overlap, at most one completes, and none runs after it.
  lemma NeverTwice(states: seq<State>, k: nat, t: int, d: int, u: int, e: int)
    requires Run(states) && k < |states| && states[k].Has(t, d) && states[k].Has(u, e)
    requires states[k].threads[t][d].Active() && states[k].threads[u][e].Active()
    ensures states[k].threads[t][d].c == states[k].threads[u][e].c ==> t == u && d == e
    ensures states[k].Runs(states[k].threads[t][d].c) == if states[k].threads[t][d].pc.Publish? then 1 else 0
  {
    hide Run;
    EveryState(states, k);
    assert FrameOk(states[k], t, d) && FrameOk(states[k], u, e);
  }

  lemma AtMostOneCompletes(states: seq<State>, k: nat, c: int)
    requires Run(states) && k < |states|
    ensures states[k].Runs(c) <= 1
  {
    hide Run;
    EveryState(states, k);
    var s := states[k];
    assert ControlOk(s, c);
    if s.Word(c).Running? { assert FrameOk(s, s.holder[c].0, s.holder[c].1); }
  }

  // No caller returns 0 before a routine has completed.
  lemma ReturnsAfterCompletion(states: seq<State>, k: nat, t: int, d: int)
    requires Run(states) && k < |states| && states[k].Has(t, d) && states[k].threads[t][d].pc.Return0?
    ensures states[k].Runs(states[k].threads[t][d].c) == 1
  {
    hide Run;
    EveryState(states, k);
    assert FrameOk(states[k], t, d) && ControlOk(states[k], states[k].threads[t][d].c);
  }

  // An unwound run leaves its control idle, not completed, and free for the next caller.
  lemma AbandonedIsIdle(states: seq<State>, k: nat, t: int)
    requires Run(states) && k < |states| - 1 && ActStep(states[k], t, states[k + 1]) && states[k].Top(t).pc.Abandon?
    ensures var c := states[k].Top(t).c; var s := states[k + 1];
            s.Word(c).Idle? && s.Runs(c) == 0 && forall u, e :: s.Has(u, e) && s.threads[u][e].c == c ==> !s.threads[u][e].Active()
  {
    hide Run;
    EveryState(states, k);
    EveryState(states, k + 1);
    var c, s := states[k].Top(t).c, states[k + 1];
    assert ControlOk(s, c);
    forall u, e | s.Has(u, e) && s.threads[u][e].c == c
      ensures !s.threads[u][e].Active()
    {
      assert FrameOk(s, u, e);
    }
  }

  // ---- a call left alone ----

  // Steps of thread t's innermost call and of no other.
  ghost predicate Solo(states: seq<State>, t: int) {
    states != [] && forall k {:trigger states[k]} :: 0 <= k < |states| - 1 ==> ActStep(states[k], t, states[k + 1])
  }

  ghost predicate Gets(s: State, t: int, s': State) {
    exists states :: Solo(states, t) && states[0] == s && states[|states| - 1] == s'
  }

  lemma Stays(s: State, t: int)
    ensures Gets(s, t, s)
  {
    assert Solo([s], t);
  }

  lemma Then(s: State, t: int, r: State, s': State)
    requires Gets(s, t, r) && ActStep(r, t, s')
    ensures Gets(s, t, s')
  {
    hide ActStep;
    var states :| Solo(states, t) && states[0] == s && states[|states| - 1] == r;
    assert Solo(states + [s'], t);
  }

  // A call of thread t on c that has just begun.
  predicate Begun(s: State, t: int, c: int) {
    0 <= t < |s.threads| && s.threads[t] != [] && s.Top(t) == Frame(c, Load)
  }

  function Inside(s: State, t: int, c: int): State
    requires 0 <= t < |s.threads| && s.threads[t] != []
  {
    s.Set(c, Running).(holder := s.holder[c := (t, |s.threads[t]| - 1)]).To(t, InRoutine)
  }

  // The first call runs the routine.
  lemma FirstRuns(s: State, t: int, c: int)
    requires Begun(s, t, c) && s.Word(c).Idle?
    ensures Gets(s, t, Inside(s, t, c))
  {
    hide Gets;
    Stays(s, t);
    Then(s, t, s, s.To(t, Try));
    var r := s.To(t, Try);
    assert r.threads[t][|r.threads[t]| - 1 := Frame(c, InRoutine)] == s.threads[t][|s.threads[t]| - 1 := Frame(c, InRoutine)];
    assert Inside(r, t, c) == Inside(s, t, c);
    Then(s, t, r, Inside(s, t, c));
  }

  // When it returns the control is done, the routine counted and the call over; an exception leaves
  // the control idle instead.
  lemma RoutineEnds(s: State, t: int, c: int)
    requires 0 <= t < |s.threads| && s.threads[t] != [] && s.Top(t) == Frame(c, InRoutine)
    ensures Gets(s, t, s.(completed := s.completed[c := s.Runs(c) + 1]).Set(c, Done).Pop(t))
    ensures Gets(s, t, s.Set(c, Idle).Pop(t))
  {
    hide Gets;
    Stays(s, t);
    var s1 := s.(completed := s.completed[c := s.Runs(c) + 1]).To(t, Publish);
    var s2 := s1.Set(c, Done).To(t, Return0);
    Then(s, t, s, s1);
    Then(s, t, s1, s2);
    PopAfter(s, t, Publish);
    PopAfter(s1, t, Return0);
    Then(s, t, s2, s2.Pop(t));
    assert s2.Pop(t) == s.(completed := s.completed[c := s.Runs(c) + 1]).Set(c, Done).Pop(t);
    PopAfter(s, t, Abandon);
    Then(s, t, s, s.To(t, Abandon));
    Then(s, t, s.To(t, Abandon), s.To(t, Abandon).Set(c, Idle).Pop(t));
  }

  lemma PopAfter(s: State, t: int, pc: Pc)
    requires 0 <= t < |s.threads| && s.threads[t] != []
    ensures s.To(t, pc).threads[t] != [] && s.To(t, pc).Pop(t).threads == s.Pop(t).threads
  {
    assert s.threads[t][|s.threads[t]| - 1 := s.Top(t).(pc := pc)][..|s.threads[t]| - 1] == s.threads[t][..|s.threads[t]| - 1];
  }

  // Later calls return at once; one that finds the routine running looks again and changes nothing.
  lemma LaterReturns(s: State, t: int, c: int)
    requires Begun(s, t, c)
    ensures s.Word(c).Done? ==> Gets(s, t, s.Pop(t))
    ensures s.Word(c).Running? ==> Gets(s, t, s.To(t, Sleep)) && Gets(s.To(t, Sleep), t, s)
  {
    hide Gets;
    Stays(s, t);
    if s.Word(c).Done? {
      PopAfter(s, t, Return0);
      Then(s, t, s, s.To(t, Return0));
      Then(s, t, s.To(t, Return0), s.To(t, Return0).Pop(t));
    } else if s.Word(c).Running? {
      var r := s.To(t, Sleep);
      Then(s, t, s, r);
      Stays(r, t);
      assert r.To(t, Load).threads[t] == s.threads[t];
      assert r.To(t, Load) == s;
      Then(r, t, r, s);
    }
  }

  // Runs begin with nobody calling and go on by any step of any thread.
  lemma RunsGoOn(states: seq<State>, t: int, c: int, s: State)
    requires Run(states)
    ensures ActStep(states[|states| - 1], t, s) || CallStep(states[|states| - 1], t, c, s) ==> Run(states + [s])
  {
    hide ActStep, CallStep, Initial;
    var last := states[|states| - 1];
    if ActStep(last, t, s) || CallStep(last, t, c, s) {
      assert Step(last, s);
      assert forall k :: 0 <= k < |states| - 1 ==> (states + [s])[k] == states[k] && Step(states[k], states[k + 1]);
    }
  }

  lemma Begins(threads: nat)
    ensures Run([State(map[], map[], map[], seq(threads, _ => []))])
  {
  }
}
