/** The run flag of `PeerCommandRunner`: any number of threads hand over buffers and any number of threads may
    find themselves running the peer's commands, yet one at a time works, and no buffer is left behind. */
module RunFlags {
  import opened Bytes

  /** A buffer, and the thread that handed it over. */
  datatype Buffer = Buffer(producer: nat, bytes: seq<Byte>)

  /** Where a thread is in `addWork` and behind it: the queue has the buffer; the flag was clear. */
  datatype Producer = Away | Enqueued | MustSchedule

  /** Where a call of `run` is: handed to the executor; in `doWork`, between two buffers or at one; about to
      clear the flag, to look at the queue's size, to test the flag. */
  datatype Runner = Scheduled | Working | Parsing(buffer: Buffer) | Clearing | Checking | Testing | Finished

  /** `producers` holds the threads that are not away. The logs say what was enqueued, and which parses began
      and ended. */
  datatype System = System(
    running: bool,
    queue: seq<Buffer>,
    producers: map<nat, Producer>,
    runners: seq<Runner>,
    enqueued: seq<Buffer>,
    begun: seq<Buffer>,
    ended: seq<Buffer>)

  /** One atomic step of a thread. The queue is first-in first-out for each producer, but not across producers,
      and `Dequeue` of nothing may happen even though something is in the queue. */
  datatype Step =
    | Enqueue(p: nat, bytes: seq<Byte>)
    | TestAndSet(p: nat)
    | Execute(p: nat)
    | Start(r: nat)
    | DequeueSome(r: nat, i: nat)
    | DequeueNone(r: nat)
    | EndParse(r: nat)
    | Clear(r: nat)
    | CheckSize(r: nat)
    | TestAgain(r: nat)

  const START := System(false, [], map[], [], [], [], [])

  function At(s: System, p: nat): Producer {
    if p in s.producers then s.producers[p] else Away
  }

  ghost predicate Enabled(s: System, step: Step) {
    match step
    case Enqueue(p, _) => At(s, p) == Away
    case TestAndSet(p) => At(s, p) == Enqueued
    case Execute(p) => At(s, p) == MustSchedule
    case Start(r) => r < |s.runners| && s.runners[r] == Scheduled
    case DequeueSome(r, i) =>
      && r < |s.runners| && s.runners[r] == Working && i < |s.queue|
      && forall j | 0 <= j < i :: s.queue[j].producer != s.queue[i].producer
    case DequeueNone(r) => r < |s.runners| && s.runners[r] == Working
    case EndParse(r) => r < |s.runners| && s.runners[r].Parsing?
    case Clear(r) => r < |s.runners| && s.runners[r] == Clearing
    case CheckSize(r) => r < |s.runners| && s.runners[r] == Checking
    case TestAgain(r) => r < |s.runners| && s.runners[r] == Testing
  }

  function Next(s: System, step: Step): System
    requires Enabled(s, step)
  {
    match step
    case Enqueue(p, bytes) =>
      var b := Buffer(p, bytes);
      s.(queue := s.queue + [b], enqueued := s.enqueued + [b], producers := s.producers[p := Enqueued])
    case TestAndSet(p) =>
      s.(running := true, producers := s.producers[p := if s.running then Away else MustSchedule])
    case Execute(p) =>
      s.(runners := s.runners + [Scheduled], producers := s.producers[p := Away])
    case Start(r) => s.(runners := s.runners[r := Working])
    case DequeueSome(r, i) =>
      s.(runners := s.runners[r := Parsing(s.queue[i])], begun := s.begun + [s.queue[i]],
         queue := s.queue[..i] + s.queue[i + 1..])
    case DequeueNone(r) => s.(runners := s.runners[r := Clearing])
    case EndParse(r) => s.(runners := s.runners[r := Working], ended := s.ended + [s.runners[r].buffer])
    case Clear(r) => s.(running := false, runners := s.runners[r := Checking])
    case CheckSize(r) => s.(runners := s.runners[r := if |s.queue| > 0 then Testing else Finished])
    case TestAgain(r) => s.(running := true, runners := s.runners[r := if s.running then Finished else Working])
  }

  /** The steps can be taken one after the other from the start. */
  ghost predicate IsRun(steps: seq<Step>)
    decreases |steps|, 0
  {
    var n := |steps| - 1;
    steps == [] || (IsRun(steps[..n]) && Enabled(After(steps[..n]), steps[n]))
  }

  ghost function After(steps: seq<Step>): System
    requires IsRun(steps)
    decreases |steps|, 1
  {
    var n := |steps| - 1;
    if steps == [] then START else Next(After(steps[..n]), steps[n])
  }

  /** The buffers that were handed over in a run. */
  function HandedOver(steps: seq<Step>): seq<Buffer> {
    if steps == [] then []
    else
      var last := steps[|steps| - 1];
      HandedOver(steps[..|steps| - 1]) + if last.Enqueue? then [Buffer(last.p, last.bytes)] else []
  }

  lemma {:induction false} EnqueuedWereHandedOver(steps: seq<Step>)
    requires IsRun(steps)
    ensures After(steps).enqueued == HandedOver(steps)
  {
    if steps != [] {
      EnqueuedWereHandedOver(steps[..|steps| - 1]);
    }
  }

  /** A thread that has something to do can do it, whatever the others do. */
  lemma NobodyIsStuck(s: System, p: nat, r: nat, bytes: seq<Byte>)
    requires r < |s.runners|
    ensures Enabled(s, Enqueue(p, bytes)) || Enabled(s, TestAndSet(p)) || Enabled(s, Execute(p))
    ensures s.runners[r] == Finished || Enabled(s, Start(r)) || Enabled(s, DequeueNone(r)) || Enabled(s, EndParse(r))
      || Enabled(s, Clear(r)) || Enabled(s, CheckSize(r)) || Enabled(s, TestAgain(r))
    ensures s.queue != [] && s.runners[r] == Working ==> Enabled(s, DequeueSome(r, 0))
  {
  }

  // ---- who may touch the commands ----

  datatype Thread = P(p: nat) | R(r: nat)

  /** The threads that act for the set flag. */
  predicate Owns(s: System, t: Thread) {
    match t
    case P(p) => At(s, p) == MustSchedule
    case R(r) => r < |s.runners| && !(s.runners[r].Checking? || s.runners[r].Testing? || s.runners[r].Finished?)
  }

  /** At most one thread owns the flag, and one does exactly if the flag is set. */
  ghost predicate OwnedBy(s: System, owner: Option<Thread>) {
    && s.running == owner.Some?
    && forall t :: Owns(s, t) <==> owner == Some(t)
  }

  /** How the steps hand the flag on. */
  function NextOwner(s: System, owner: Option<Thread>, step: Step): Option<Thread> {
    match step
    case TestAndSet(p) => if s.running then owner else Some(P(p))
    case Execute(p) => Some(R(|s.runners|))
    case Clear(r) => None
    case TestAgain(r) => if s.running then owner else Some(R(r))
    case _ => owner
  }

  /** A thread is inside `doWork`. */
  predicate InDoWork(s: System, r: nat) {
    r < |s.runners| && (s.runners[r].Working? || s.runners[r].Parsing?)
  }

  // ---- what happens to the buffers ----

  function From(buffers: seq<Buffer>, p: nat): seq<Buffer> {
    if buffers == [] then []
    else
      var last := buffers[|buffers| - 1];
      From(buffers[..|buffers| - 1], p) + if last.producer == p then [last] else []
  }

  ghost predicate NothingLost(s: System) {
    forall p: nat :: From(s.enqueued, p) == From(s.begun, p) + From(s.queue, p)
  }

  /** The buffer that the owner is parsing. */
  function InHand(s: System, owner: Option<Thread>): seq<Buffer> {
    match owner
    case Some(R(r)) => if r < |s.runners| && s.runners[r].Parsing? then [s.runners[r].buffer] else []
    case _ => []
  }

  /** A parse ends before the next one begins. */
  ghost predicate ParsesInTurn(s: System, owner: Option<Thread>) {
    s.begun == s.ended + InHand(s, owner)
  }

  // ---- nobody sleeps on a full queue ----

  /** Somebody will still look at the queue. */
  predicate WillLook(s: System, t: Thread) {
    || Owns(s, t)
    || match t
       case P(p) => At(s, p) == Enqueued
       case R(r) => r < |s.runners| && (s.runners[r].Checking? || s.runners[r].Testing?)
  }

  ghost predicate NoLostWakeup(s: System) {
    s.queue != [] ==> exists t :: WillLook(s, t)
  }

  lemma OwnerKept(s: System, owner: Option<Thread>, step: Step)
    requires Enabled(s, step) && OwnedBy(s, owner)
    ensures OwnedBy(Next(s, step), NextOwner(s, owner, step))
  {
    var n, next := Next(s, step), NextOwner(s, owner, step);
    match step
    case Enqueue(p, _) =>
    case TestAndSet(p) => assert Owns(s, P(p)) == false;
    case Execute(p) => assert Owns(s, P(p));
    case Start(r) => assert Owns(s, R(r));
    case DequeueSome(r, i) => assert Owns(s, R(r));
    case DequeueNone(r) => assert Owns(s, R(r));
    case EndParse(r) => assert Owns(s, R(r));
    case Clear(r) => assert Owns(s, R(r));
    case CheckSize(r) => assert !Owns(s, R(r));
    case TestAgain(r) => assert !Owns(s, R(r));
  }

  lemma FromOneMore(buffers: seq<Buffer>, b: Buffer, p: nat)
    ensures From(buffers + [b], p) == From(buffers, p) + if b.producer == p then [b] else []
  {
    assert (buffers + [b])[..|buffers|] == buffers;
  }

  lemma {:induction false} FromConcat(xs: seq<Buffer>, ys: seq<Buffer>, p: nat)
    ensures From(xs + ys, p) == From(xs, p) + From(ys, p)
  {
    if ys == [] {
      assert xs + ys == xs;
    } else {
      var n := |ys| - 1;
      assert (xs + ys)[..|xs| + n] == xs + ys[..n];
      FromConcat(xs, ys[..n], p);
    }
  }

  lemma {:induction false} FromNobody(xs: seq<Buffer>, p: nat)
    requires forall j | 0 <= j < |xs| :: xs[j].producer != p
    ensures From(xs, p) == []
  {
    if xs != [] {
      FromNobody(xs[..|xs| - 1], p);
    }
  }

  /** Taking a producer's first buffer out of the queue. */
  lemma FromTaken(queue: seq<Buffer>, i: nat, p: nat)
    requires i < |queue| && forall j | 0 <= j < i :: queue[j].producer != queue[i].producer
    ensures From(queue, p) == (if queue[i].producer == p then [queue[i]] else []) + From(queue[..i] + queue[i + 1..], p)
  {
    hide From;
    var front, back := queue[..i], queue[i + 1..];
    FromInserted(front, queue[i], back, p);
    assert queue == front + [queue[i]] + back;
    if queue[i].producer == p {
      FromNobody(front, p);
    }
  }

  lemma FromInserted(front: seq<Buffer>, b: Buffer, back: seq<Buffer>, p: nat)
    ensures From(front + back, p) == From(front, p) + From(back, p)
    ensures From(front + [b] + back, p) == From(front, p) + (if b.producer == p then [b] else []) + From(back, p)
  {
    hide From;
    FromConcat(front + [b], back, p);
    FromOneMore(front, b, p);
    FromConcat(front, back, p);
  }

  lemma NothingLostKept(s: System, step: Step)
    requires Enabled(s, step) && NothingLost(s)
    ensures NothingLost(Next(s, step))
  {
    hide From;
    var n := Next(s, step);
    match step {
      case Enqueue(q, bytes) =>
        forall p: nat ensures From(n.enqueued, p) == From(n.begun, p) + From(n.queue, p) {
          FromOneMore(s.enqueued, Buffer(q, bytes), p);
          FromOneMore(s.queue, Buffer(q, bytes), p);
        }
      case DequeueSome(r, i) =>
        forall p: nat ensures From(n.enqueued, p) == From(n.begun, p) + From(n.queue, p) {
          FromTaken(s.queue, i, p);
          FromOneMore(s.begun, s.queue[i], p);
        }
      case _ =>
    }
  }

  lemma ParsesInTurnKept(s: System, owner: Option<Thread>, step: Step)
    requires Enabled(s, step) && OwnedBy(s, owner) && ParsesInTurn(s, owner)
    ensures ParsesInTurn(Next(s, step), NextOwner(s, owner, step))
  {
    match step
    case DequeueSome(r, i) => assert Owns(s, R(r));
    case EndParse(r) => assert Owns(s, R(r));
    case Execute(p) => assert Owns(s, P(p));
    case Start(r) => assert Owns(s, R(r));
    case DequeueNone(r) => assert Owns(s, R(r));
    case Clear(r) => assert Owns(s, R(r));
    case _ =>
  }

  lemma NoLostWakeupKept(s: System, owner: Option<Thread>, step: Step)
    requires Enabled(s, step) && OwnedBy(s, owner) && NoLostWakeup(s)
    ensures NoLostWakeup(Next(s, step))
  {
    var n := Next(s, step);
    OwnerKept(s, owner, step);
    match step
    case Enqueue(p, _) => assert WillLook(n, P(p));
    case TestAndSet(_) => assert WillLook(n, NextOwner(s, owner, step).value);
    case Execute(p) => assert WillLook(n, R(|s.runners|));
    case Start(r) => assert WillLook(n, R(r));
    case DequeueSome(r, _) => assert WillLook(n, R(r));
    case DequeueNone(r) => assert WillLook(n, R(r));
    case EndParse(r) => assert WillLook(n, R(r));
    case Clear(r) => assert WillLook(n, R(r));
    case CheckSize(r) => assert s.queue != [] ==> WillLook(n, R(r));
    case TestAgain(_) => assert WillLook(n, NextOwner(s, owner, step).value);
  }

  ghost predicate Invariant(s: System, owner: Option<Thread>) {
    OwnedBy(s, owner) && NothingLost(s) && ParsesInTurn(s, owner) && NoLostWakeup(s)
  }

  lemma {:induction false} RunKeeps(steps: seq<Step>) returns (owner: Option<Thread>)
    requires IsRun(steps)
    ensures Invariant(After(steps), owner)
  {
    owner := None;
    if steps != [] {
      var n := |steps| - 1;
      var before := After(steps[..n]);
      owner := RunKeeps(steps[..n]);
      OwnerKept(before, owner, steps[n]);
      NothingLostKept(before, steps[n]);
      ParsesInTurnKept(before, owner, steps[n]);
      NoLostWakeupKept(before, owner, steps[n]);
      owner := NextOwner(before, owner, steps[n]);
    }
  }

  /** Under every interleaving, at most one call of `run` is in `doWork`, and the flag is set meanwhile. */
  lemma OneThreadWorks(steps: seq<Step>, r: nat, q: nat)
    requires IsRun(steps) && InDoWork(After(steps), r) && InDoWork(After(steps), q)
    ensures r == q && After(steps).running
  {
    var owner := RunKeeps(steps);
    assert Owns(After(steps), R(r)) && Owns(After(steps), R(q));
  }

  /** Nobody is in `addWork`, about to schedule, scheduled or in `run`. */
  ghost predicate AtRest(s: System) {
    && (forall p: nat :: At(s, p) == Away)
    && (forall r | 0 <= r < |s.runners| :: s.runners[r] == Finished)
  }

  lemma NobodyLooks(s: System)
    requires AtRest(s)
    ensures forall t :: !WillLook(s, t) && !Owns(s, t)
  {
  }

  lemma OwnerOwns(s: System, owner: Option<Thread>)
    requires OwnedBy(s, owner)
    ensures owner.Some? ==> Owns(s, owner.value)
  {
  }

  /** Under every interleaving, once all threads are at rest, every buffer was parsed exactly once, those of one
      producer in the order it handed them over, no two parses overlapped, and the flag is clear for the next
      buffer. */
  lemma EverythingIsParsedOnce(steps: seq<Step>)
    requires IsRun(steps) && AtRest(After(steps))
    ensures var s := After(steps);
      && s.queue == [] && !s.running
      && s.begun == s.ended
      && forall p: nat :: From(s.ended, p) == From(HandedOver(steps), p)
  {
    EnqueuedWereHandedOver(steps);
    var owner := RunKeeps(steps);
    NobodyLooks(After(steps));
    hide IsRun, After, AtRest, WillLook, Owns;
    OwnerOwns(After(steps), owner);
  }

  /** While something is queued, a thread is on its way that will look at the queue. */
  lemma SomebodyWillLook(steps: seq<Step>)
    requires IsRun(steps) && After(steps).queue != []
    ensures exists t :: WillLook(After(steps), t)
  {
    var owner := RunKeeps(steps);
  }

  /** A peer whose buffers all come from one thread has them parsed in exactly the order they came. */
  lemma OneProducerKeepsOrder(steps: seq<Step>, p: nat)
    requires IsRun(steps) && AtRest(After(steps))
    requires forall b <- HandedOver(steps) :: b.producer == p
    ensures After(steps).ended == HandedOver(steps)
  {
    EnqueuedWereHandedOver(steps);
    hide *;
    EverythingIsParsedOnce(steps);
    var s := After(steps);
    FromOnlyOne(s.enqueued, p);
    forall q: nat | q != p ensures From(s.ended, q) == [] {
      FromNobody(s.enqueued, q);
    }
    OnlyFrom(s.ended, p);
    FromOnlyOne(s.ended, p);
  }

  lemma {:induction false} FromOnlyOne(buffers: seq<Buffer>, p: nat)
    requires forall b <- buffers :: b.producer == p
    ensures From(buffers, p) == buffers
  {
    if buffers != [] {
      FromOnlyOne(buffers[..|buffers| - 1], p);
    }
  }

  lemma {:induction false} OnlyFrom(buffers: seq<Buffer>, p: nat)
    requires forall q: nat | q != p :: From(buffers, q) == []
    ensures forall b <- buffers :: b.producer == p
  {
    if buffers != [] {
      var (init, last) := (buffers[..|buffers| - 1], buffers[|buffers| - 1]);
      assert last.producer != p ==> From(buffers, last.producer) != [];
      forall q: nat | q != p ensures From(init, q) == [] {
        assert From(buffers, q) == [];
      }
      OnlyFrom(init, p);
      assert buffers == init + [last];
    }
  }

  lemma OneMoreStep(steps: seq<Step>, step: Step)
    requires IsRun(steps) && Enabled(After(steps), step)
    ensures IsRun(steps + [step]) && After(steps + [step]) == Next(After(steps), step)
  {
    assert (steps + [step])[..|steps|] == steps;
  }

  /** A run: a thread hands a buffer over, and a call of `run` parses it. */
  lemma ARun(bytes: seq<Byte>)
    ensures var steps := [Enqueue(0, bytes)] + [TestAndSet(0)] + [Execute(0)] + [Start(0)] + [DequeueSome(0, 0)]
        + [EndParse(0)] + [DequeueNone(0)] + [Clear(0)] + [CheckSize(0)];
      IsRun(steps) && AtRest(After(steps)) && After(steps).ended == [Buffer(0, bytes)]
  {
    var b, first := Buffer(0, bytes), [Enqueue(0, bytes)] + [TestAndSet(0)] + [Execute(0)] + [Start(0)] + [DequeueSome(0, 0)];
    hide IsRun, After;
    UpToParsing(bytes);
    OneMoreStep(first, EndParse(0));
    OneMoreStep(first + [EndParse(0)], DequeueNone(0));
    OneMoreStep(first + [EndParse(0)] + [DequeueNone(0)], Clear(0));
    OneMoreStep(first + [EndParse(0)] + [DequeueNone(0)] + [Clear(0)], CheckSize(0));
  }

  lemma UpToParsing(bytes: seq<Byte>)
    ensures var (steps, b) :=
        ([Enqueue(0, bytes)] + [TestAndSet(0)] + [Execute(0)] + [Start(0)] + [DequeueSome(0, 0)], Buffer(0, bytes));
      IsRun(steps) && After(steps) == System(true, [], map[0 := Away], [Parsing(b)], [b], [b], [])
  {
    assert IsRun([]) && After([]) == START;
    hide IsRun, After;
    OneMoreStep([], Enqueue(0, bytes));
    assert [] + [Enqueue(0, bytes)] == [Enqueue(0, bytes)];
    OneMoreStep([Enqueue(0, bytes)], TestAndSet(0));
    OneMoreStep([Enqueue(0, bytes)] + [TestAndSet(0)], Execute(0));
    OneMoreStep([Enqueue(0, bytes)] + [TestAndSet(0)] + [Execute(0)], Start(0));
    OneMoreStep([Enqueue(0, bytes)] + [TestAndSet(0)] + [Execute(0)] + [Start(0)], DequeueSome(0, 0));
  }
}
