/**
 The fast image-share client (image-rs/src/vsock_ttrpc_client/mod.rs): every interleaving of preconnect, prefetch and
 prepare tasks over the slot for a connected stream, the slot for a prefetched response and the prepare lock.

 Streams and responses are numbered. `sent` lists the references written on each stream; the server answers the first.
 `produced` records which reference each response was produced for.
 */
module FastClient {
  import opened Common

  datatype Kind = Preconnect | Prepare | Prefetch

  datatype Pc =
    | Connecting | Storing(stream: nat)
    | TakeFirst | Lock | TakeSecond | CheckCached
    | TakeStream | Connect | Send(stream: nat) | Receive(stream: nat)
    | StorePrepared(response: nat)
    | Unlock(result: Option<nat>)
    | Finished(result: Option<nat>)

  datatype Task = Task(kind: Kind, imageRef: string, pc: Pc)
  datatype Prefetched = Prefetched(imageRef: string, response: nat)

  datatype Shared = Shared(
    stream: Option<nat>, prepared: Option<Prefetched>, lock: Option<nat>,
    sent: map<nat, seq<string>>, produced: map<nat, string>, nextStream: nat, nextResponse: nat)

  datatype State = State(slots: Shared, tasks: map<nat, Task>)

  datatype Action =
    | Arrive(id: nat, kind: Kind, imageRef: string)
    | Step(id: nat, ok: bool)
    | Abort(id: nat)

  // ---------------------------------------------------------------- steps

  datatype Effect =
    | Nothing
    | NewStream
    | PutStream(stream: nat)
    | TookStream
    | Write(stream: nat)
    | Respond(stream: nat)
    | PutPrepared(response: nat)
    | TookPrepared
    | Acquire
    | Release

  function Affected(f: Shared, t: nat, ref: string, effect: Effect): Shared {
    match effect
    case Nothing => f
    case NewStream => f.(nextStream := f.nextStream + 1)
    case PutStream(st) => f.(stream := Some(st))
    case TookStream => f.(stream := None)
    case Write(st) => f.(sent := f.sent[st := (if st in f.sent then f.sent[st] else []) + [ref]])
    case Respond(st) =>
      f.(produced := f.produced[f.nextResponse := if st in f.sent && f.sent[st] != [] then f.sent[st][0] else []],
        nextResponse := f.nextResponse + 1)
    case PutPrepared(r) => f.(prepared := Some(Prefetched(ref, r)))
    case TookPrepared => f.(prepared := None)
    case Acquire => f.(lock := Some(t))
    case Release => f.(lock := None)
  }

  predicate Matches(f: Shared, ref: string) { f.prepared.Some? && f.prepared.value.imageRef == ref }

  function StepOf(f: Shared, kind: Kind, ref: string, pc: Pc, ok: bool): (Pc, Effect) {
    match pc
    case Connecting => if ok then (Storing(f.nextStream), NewStream) else (Finished(None), Nothing)
    case Storing(st) => (Finished(None), PutStream(st))
    case TakeFirst => if Matches(f, ref) then (Finished(Some(f.prepared.value.response)), TookPrepared)
      else (Lock, Nothing)
    case Lock => if f.lock.None? then (if kind == Prepare then TakeSecond else CheckCached, Acquire) else (pc, Nothing)
    case TakeSecond => if Matches(f, ref) then (Unlock(Some(f.prepared.value.response)), TookPrepared)
      else (TakeStream, Nothing)
    case CheckCached => (if Matches(f, ref) then Unlock(None) else TakeStream, Nothing)
    case TakeStream => if f.stream.Some? then (Send(f.stream.value), TookStream) else (Connect, Nothing)
    case Connect => if ok then (Send(f.nextStream), NewStream) else (Unlock(None), Nothing)
    case Send(st) => (if ok then Receive(st) else Unlock(None), Write(st))
    case Receive(st) =>
      if ok then (if kind == Prepare then Unlock(Some(f.nextResponse)) else StorePrepared(f.nextResponse), Respond(st))
      else (Unlock(None), Nothing)
    case StorePrepared(r) => (Unlock(None), PutPrepared(r))
    case Unlock(result) => (Finished(result), Release)
    case Finished(_) => (pc, Nothing)
  }

  predicate HoldsLock(pc: Pc) {
    !(pc.Connecting? || pc.Storing? || pc.TakeFirst? || pc.Lock? || pc.Finished?)
  }

  /** In `prepare_rootfs_fast_uncached`. */
  predicate Uncached(pc: Pc) { pc.TakeStream? || pc.Connect? || pc.Send? || pc.Receive? }

  /** A time-out or a cancelled task: its future is dropped, and the guard with it. */
  function AbortOf(pc: Pc): (Pc, Effect) {
    if pc.Finished? then (pc, Nothing) else (Finished(None), if HoldsLock(pc) then Release else Nothing)
  }

  function Entry(kind: Kind, ref: string): Pc {
    match kind
    case Preconnect => Connecting
    case Prepare => TakeFirst
    case Prefetch => if ref == [] then Finished(None) else Lock
  }

  predicate Enabled(s: State, a: Action) { if a.Arrive? then a.id !in s.tasks else a.id in s.tasks }

  function StepFor(s: State, a: Action): (Pc, Effect) requires Enabled(s, a) && !a.Arrive? {
    var Task(kind, ref, pc) := s.tasks[a.id];
    if a.Step? then StepOf(s.slots, kind, ref, pc, a.ok) else AbortOf(pc)
  }

  function After(s: State, a: Action): State requires Enabled(s, a) {
    match a
    case Arrive(t, kind, ref) => s.(tasks := s.tasks[t := Task(kind, ref, Entry(kind, ref))])
    case _ =>
      var Task(kind, ref, pc) := s.tasks[a.id];
      var (pc', effect) := StepFor(s, a);
      State(Affected(s.slots, a.id, ref, effect), s.tasks[a.id := Task(kind, ref, pc')])
  }

  predicate Initial(s: State) {
    s.tasks == map[] && s.slots.stream == None && s.slots.prepared == None && s.slots.lock == None
      && s.slots.sent == map[] && s.slots.produced == map[]
  }

  ghost predicate Run(states: seq<State>, actions: seq<Action>) {
    && |states| == |actions| + 1 && Initial(states[0])
    && forall i :: 0 <= i < |actions| ==>
      Enabled(states[i], actions[i]) && states[i + 1] == After(states[i], actions[i])
  }

  // ---------------------------------------------------------------- the invariant

  /** An unused stream that the task holds. */
  function Held(pc: Pc): Option<nat> {
    match pc
    case Storing(st) => Some(st)
    case Send(st) => Some(st)
    case _ => None
  }

  /** A response that the task has received or taken. */
  function Carried(pc: Pc): Option<nat> {
    match pc
    case StorePrepared(r) => Some(r)
    case Unlock(result) => result
    case Finished(result) => result
    case _ => None
  }

  predicate Unused(f: Shared, st: nat) { st < f.nextStream && st !in f.sent }

  predicate ProducedFor(f: Shared, r: nat, ref: string) {
    r < f.nextResponse && r in f.produced && f.produced[r] == ref
  }

  ghost predicate StreamsOk(f: Shared) {
    && (f.stream.Some? ==> Unused(f, f.stream.value))
    && forall st :: st in f.sent ==> st < f.nextStream && |f.sent[st]| == 1
  }

  predicate PreparedOk(f: Shared) {
    f.prepared.Some? ==> ProducedFor(f, f.prepared.value.response, f.prepared.value.imageRef)
  }

  predicate LockOk(f: Shared, t: nat, pc: Pc) { HoldsLock(pc) <==> f.lock == Some(t) }

  predicate StreamOk(f: Shared, ref: string, pc: Pc) {
    && (Held(pc).Some? ==> Unused(f, Held(pc).value) && f.stream != Held(pc))
    && (pc.Receive? ==> pc.stream in f.sent && f.sent[pc.stream] == [ref])
  }

  predicate ResponseOk(f: Shared, ref: string, pc: Pc) {
    Carried(pc).Some? ==>
      && ProducedFor(f, Carried(pc).value, ref)
      && (f.prepared.Some? ==> f.prepared.value.response != Carried(pc).value)
  }

  /** One task against the slots. */
  predicate TaskOk(f: Shared, t: nat, task: Task) {
    LockOk(f, t, task.pc) && StreamOk(f, task.imageRef, task.pc) && ResponseOk(f, task.imageRef, task.pc)
  }

  /** Two tasks hold different streams and different responses. */
  predicate Apart(a: Pc, b: Pc) {
    && (Held(a).Some? ==> Held(a) != Held(b))
    && (Carried(a).Some? ==> Carried(a) != Carried(b))
  }

  ghost predicate Inv(s: State) {
    && StreamsOk(s.slots) && PreparedOk(s.slots) && (s.slots.lock.Some? ==> s.slots.lock.value in s.tasks)
    && (forall t :: t in s.tasks ==> TaskOk(s.slots, t, s.tasks[t]))
    && (forall t, u :: t in s.tasks && u in s.tasks && t != u ==> Apart(s.tasks[t].pc, s.tasks[u].pc))
  }

  // ---------------------------------------------------------------- what a step may do

  predicate LegalLock(f: Shared, pc: Pc, step: (Pc, Effect)) {
    match step.1
    case Acquire => f.lock == None && !HoldsLock(pc) && HoldsLock(step.0)
    case Release => HoldsLock(pc) && !HoldsLock(step.0)
    case _ => HoldsLock(pc) == HoldsLock(step.0)
  }

  /** A stream comes into a task's hands new or from the slot, and leaves them into the slot or by being written. */
  predicate LegalStream(f: Shared, pc: Pc, step: (Pc, Effect)) {
    && (Held(step.0).Some? ==>
          (step.1 == NewStream && Held(step.0).value == f.nextStream)
            || (step.1 == TookStream && Held(step.0) == f.stream))
    && (step.0.Receive? ==> step.1 == Write(step.0.stream))
    && (match step.1
        case PutStream(st) => Held(pc) == Some(st) && Held(step.0) == None
        case Write(st) => Held(pc) == Some(st) && Held(step.0) == None
        case _ => true)
  }

  /** A response comes from the task's own stream or from the slot, and leaves the task only into the slot. */
  predicate LegalResponse(f: Shared, ref: string, pc: Pc, step: (Pc, Effect)) {
    && (Carried(step.0).Some? ==>
          || (Carried(step.0) == Carried(pc) && !step.1.PutPrepared? && !step.1.TookPrepared?)
          || (step.1.Respond? && pc == Receive(step.1.stream) && Carried(step.0).value == f.nextResponse)
          || (step.1 == TookPrepared && Matches(f, ref) && Carried(step.0).value == f.prepared.value.response))
    && (step.1.PutPrepared? ==> Carried(pc) == Some(step.1.response) && Carried(step.0) == None)
  }

  predicate Legal(f: Shared, ref: string, pc: Pc, step: (Pc, Effect)) {
    LegalLock(f, pc, step) && LegalStream(f, pc, step) && LegalResponse(f, ref, pc, step)
  }

  lemma {:induction false} StepsAreLegal(f: Shared, kind: Kind, ref: string, pc: Pc, ok: bool)
    ensures Legal(f, ref, pc, StepOf(f, kind, ref, pc, ok))
  {}

  lemma {:induction false} AbortsAreLegal(f: Shared, ref: string, pc: Pc)
    ensures Legal(f, ref, pc, AbortOf(pc))
  {}

  lemma {:induction false} LocksKept(f: Shared, t: nat, ref: string, pc: Pc, step: (Pc, Effect), u: nat, other: Pc)
    requires LegalLock(f, pc, step) && LockOk(f, t, pc) && (t != u ==> LockOk(f, u, other))
    ensures LockOk(Affected(f, t, ref, step.1), t, step.0)
    ensures t != u ==> LockOk(Affected(f, t, ref, step.1), u, other)
  {}

  lemma {:induction false} StreamsKept(f: Shared, t: nat, ref: string, pc: Pc, step: (Pc, Effect))
    requires LegalStream(f, pc, step) && StreamsOk(f) && StreamOk(f, ref, pc)
    ensures StreamsOk(Affected(f, t, ref, step.1)) && StreamOk(Affected(f, t, ref, step.1), ref, step.0)
  {}

  lemma {:induction false} OtherStreamsKept(
      f: Shared, t: nat, ref: string, pc: Pc, step: (Pc, Effect), ref': string, other: Pc)
    requires LegalStream(f, pc, step) && StreamsOk(f) && StreamOk(f, ref, pc) && StreamOk(f, ref', other)
    requires Held(pc).Some? ==> Held(pc) != Held(other)
    ensures StreamOk(Affected(f, t, ref, step.1), ref', other)
    ensures Held(step.0).Some? ==> Held(step.0) != Held(other)
  {}

  lemma {:induction false} ResponsesKept(f: Shared, t: nat, ref: string, pc: Pc, step: (Pc, Effect))
    requires LegalResponse(f, ref, pc, step) && PreparedOk(f) && StreamOk(f, ref, pc) && ResponseOk(f, ref, pc)
    ensures PreparedOk(Affected(f, t, ref, step.1)) && ResponseOk(Affected(f, t, ref, step.1), ref, step.0)
  {}

  lemma {:induction false} OtherResponsesKept(
      f: Shared, t: nat, ref: string, pc: Pc, step: (Pc, Effect), ref': string, other: Pc)
    requires LegalResponse(f, ref, pc, step) && PreparedOk(f) && ResponseOk(f, ref, pc) && ResponseOk(f, ref', other)
    requires Carried(pc).Some? ==> Carried(pc) != Carried(other)
    ensures ResponseOk(Affected(f, t, ref, step.1), ref', other)
    ensures Carried(step.0).Some? ==> Carried(step.0) != Carried(other)
  {}

  lemma {:induction false} StepKeepsOther(s: State, a: Action, u: nat)
    requires Inv(s) && Enabled(s, a) && !a.Arrive? && u in s.tasks && u != a.id
    requires Legal(s.slots, s.tasks[a.id].imageRef, s.tasks[a.id].pc, StepFor(s, a))
    ensures
      var Task(_, ref, pc) := s.tasks[a.id];
      var (pc', effect) := StepFor(s, a);
      TaskOk(Affected(s.slots, a.id, ref, effect), u, s.tasks[u]) && Apart(pc', s.tasks[u].pc)
        && Apart(s.tasks[u].pc, pc')
  {
    var Task(_, ref, pc) := s.tasks[a.id];
    var other, step := s.tasks[u], StepFor(s, a);
    assert TaskOk(s.slots, a.id, s.tasks[a.id]) && TaskOk(s.slots, u, other) && Apart(pc, other.pc)
      && Apart(other.pc, pc);
    LocksKept(s.slots, a.id, ref, pc, step, u, other.pc);
    OtherStreamsKept(s.slots, a.id, ref, pc, step, other.imageRef, other.pc);
    OtherResponsesKept(s.slots, a.id, ref, pc, step, other.imageRef, other.pc);
  }

  lemma {:induction false} StepKeepsOwn(s: State, a: Action)
    requires Inv(s) && Enabled(s, a) && !a.Arrive?
    requires Legal(s.slots, s.tasks[a.id].imageRef, s.tasks[a.id].pc, StepFor(s, a))
    ensures
      var Task(kind, ref, pc) := s.tasks[a.id];
      var (pc', effect) := StepFor(s, a);
      var f := Affected(s.slots, a.id, ref, effect);
      StreamsOk(f) && PreparedOk(f) && (f.lock.Some? ==> f.lock.value in s.tasks)
        && TaskOk(f, a.id, Task(kind, ref, pc'))
  {
    var Task(_, ref, pc) := s.tasks[a.id];
    var step := StepFor(s, a);
    assert TaskOk(s.slots, a.id, s.tasks[a.id]);
    LocksKept(s.slots, a.id, ref, pc, step, a.id, pc);
    StreamsKept(s.slots, a.id, ref, pc, step);
    ResponsesKept(s.slots, a.id, ref, pc, step);
  }

  lemma {:induction false} ArrivalKeepsInv(s: State, a: Action)
    requires Inv(s) && Enabled(s, a) && a.Arrive?
    ensures Inv(After(s, a))
  {
    var pc := Entry(a.kind, a.imageRef);
    assert !HoldsLock(pc) && !pc.Receive? && Held(pc) == None && Carried(pc) == None;
  }

  lemma {:induction false} StepKeepsInv(s: State, a: Action)
    requires Inv(s) && Enabled(s, a)
    ensures Inv(After(s, a))
  {
    if a.Arrive? {
      ArrivalKeepsInv(s, a);
    } else {
      var s' := After(s, a);
      var Task(kind, ref, pc) := s.tasks[a.id];
      if a.Step? {
        StepsAreLegal(s.slots, kind, ref, pc, a.ok);
      } else {
        AbortsAreLegal(s.slots, ref, pc);
      }
      StepKeepsOwn(s, a);
      forall u | u in s.tasks && u != a.id
        ensures TaskOk(s'.slots, u, s'.tasks[u]) && Apart(s'.tasks[a.id].pc, s'.tasks[u].pc)
        ensures Apart(s'.tasks[u].pc, s'.tasks[a.id].pc)
      {
        StepKeepsOther(s, a, u);
      }
    }
  }

  lemma {:induction false} RunKeepsInv(states: seq<State>, actions: seq<Action>, k: nat)
    requires Run(states, actions) && k < |states|
    ensures Inv(states[k])
  {
    if k > 0 {
      RunKeepsInv(states, actions, k - 1);
      StepKeepsInv(states[k - 1], actions[k - 1]);
    }
  }

  // ---------------------------------------------------------------- what holds in every run

  /** A returned response was produced by a request for the same reference. */
  lemma {:induction false} ResponsesFit(states: seq<State>, actions: seq<Action>, k: nat, t: nat)
    requires Run(states, actions) && k < |states| && t in states[k].tasks
    requires states[k].tasks[t].pc.Finished? && states[k].tasks[t].pc.result.Some?
    ensures
      var r := states[k].tasks[t].pc.result.value;
      r in states[k].slots.produced && states[k].slots.produced[r] == states[k].tasks[t].imageRef
  {
    RunKeepsInv(states, actions, k);
    assert TaskOk(states[k].slots, t, states[k].tasks[t]);
  }

  /** No response is returned twice, and a returned one is no longer in the slot. */
  lemma {:induction false} ResponsesAreReturnedOnce(states: seq<State>, actions: seq<Action>, k: nat, t: nat, u: nat)
    requires Run(states, actions) && k < |states| && t in states[k].tasks && u in states[k].tasks && t != u
    requires states[k].tasks[t].pc.Finished? && states[k].tasks[t].pc.result.Some? && states[k].tasks[u].pc.Finished?
    ensures states[k].tasks[t].pc.result != states[k].tasks[u].pc.result
    ensures states[k].slots.prepared.Some? ==>
      states[k].slots.prepared.value.response != states[k].tasks[t].pc.result.value
  {
    RunKeepsInv(states, actions, k);
    assert Apart(states[k].tasks[t].pc, states[k].tasks[u].pc);
    assert TaskOk(states[k].slots, t, states[k].tasks[t]);
  }

  /** Every stream, preconnected or not, carries at most one request. */
  lemma {:induction false} StreamsServeOnce(states: seq<State>, actions: seq<Action>, k: nat, st: nat)
    requires Run(states, actions) && k < |states| && st in states[k].slots.sent
    ensures |states[k].slots.sent[st]| == 1 && states[k].slots.stream != Some(st)
  {
    RunKeepsInv(states, actions, k);
  }

  /** At most one task at a time prepares without the cache. */
  lemma {:induction false} OneUncachedPrepare(states: seq<State>, actions: seq<Action>, k: nat, t: nat, u: nat)
    requires Run(states, actions) && k < |states| && t in states[k].tasks && u in states[k].tasks
    requires Uncached(states[k].tasks[t].pc) && Uncached(states[k].tasks[u].pc)
    ensures t == u
  {
    RunKeepsInv(states, actions, k);
    assert TaskOk(states[k].slots, t, states[k].tasks[t]) && TaskOk(states[k].slots, u, states[k].tasks[u]);
  }

  /** The lock is free once every task has finished or been aborted: none is left holding it. */
  lemma {:induction false} LockIsReleased(states: seq<State>, actions: seq<Action>, k: nat)
    requires Run(states, actions) && k < |states|
    requires forall t :: t in states[k].tasks ==> states[k].tasks[t].pc.Finished?
    ensures states[k].slots.lock == None
  {
    RunKeepsInv(states, actions, k);
    var s := states[k];
    assert forall t :: t in s.tasks ==> TaskOk(s.slots, t, s.tasks[t]);
  }

  // ---------------------------------------------------------------- what a task gets when all works

  /** A prepare takes a matching prefetched response at once, without any stream. */
  lemma {:induction false} PrefetchedIsTaken(s: State, t: nat, ref: string, r: nat, ok: bool)
    requires t !in s.tasks && s.slots.prepared == Some(Prefetched(ref, r))
    ensures
      var s' := After(After(s, Arrive(t, Prepare, ref)), Step(t, ok));
      && s'.tasks[t].pc == Finished(Some(r)) && s'.slots == s.slots.(prepared := None)
  {}

  /** It also takes one that a prefetch stored while the prepare waited for the lock. */
  lemma {:induction false} PrefetchedIsTakenAfterWait(s: State, t: nat, ref: string, r: nat, ok: bool)
    requires t in s.tasks && s.tasks[t] == Task(Prepare, ref, TakeSecond)
    requires s.slots.prepared == Some(Prefetched(ref, r))
    ensures
      var s' := After(s, Step(t, ok));
      s'.tasks[t].pc == Unlock(Some(r)) && s'.slots == s.slots.(prepared := None)
  {}

  function Rank(pc: Pc): nat {
    match pc
    case TakeStream => 7
    case Connect => 6
    case Send(_) => 5
    case Receive(_) => 4
    case StorePrepared(_) => 3
    case Unlock(_) => 2
    case Finished(_) => 0
    case _ => 9
  }

  /** The slots and the result when a task that holds the lock runs to its end and all works. */
  function RunOut(f: Shared, t: nat, kind: Kind, ref: string, pc: Pc): (Shared, Option<nat>)
    requires Rank(pc) <= 7
    decreases Rank(pc)
  {
    if pc.Finished? then (f, pc.result)
    else
      var (pc', effect) := StepOf(f, kind, ref, pc, true);
      RunOut(Affected(f, t, ref, effect), t, kind, ref, pc')
  }

  lemma {:induction false} RunOutStep(f: Shared, t: nat, kind: Kind, ref: string, pc: Pc)
    requires Rank(pc) <= 7 && !pc.Finished?
    ensures var (pc', effect) := StepOf(f, kind, ref, pc, true);
      Rank(pc') <= 7 && RunOut(f, t, kind, ref, pc) == RunOut(Affected(f, t, ref, effect), t, kind, ref, pc')
  {}

  lemma {:induction false} EndAlone(f: Shared, t: nat, kind: Kind, ref: string, result: Option<nat>)
    ensures RunOut(f, t, kind, ref, Unlock(result)) == (f.(lock := None), result)
  {
    RunOutStep(f, t, kind, ref, Unlock(result));
  }

  /** From a stream of its own: a prepare returns the answer to its request, a prefetch leaves it in the slot. */
  lemma {:induction false} SendAlone(f: Shared, t: nat, kind: Kind, ref: string, st: nat)
    requires st !in f.sent && kind != Preconnect
    ensures
      var (g, r) := RunOut(f, t, kind, ref, Send(st));
      var n := f.nextResponse;
      && g.lock == None && g.sent == f.sent[st := [ref]] && n in g.produced && g.produced[n] == ref
      && (if kind == Prepare then r == Some(n) && g.prepared == f.prepared
          else r == None && g.prepared == Some(Prefetched(ref, n)))
  {
    RunOutStep(f, t, kind, ref, Send(st));
    var f1 := Affected(f, t, ref, Write(st));
    assert [] + [ref] == [ref] && f1.sent == f.sent[st := [ref]];
    RunOutStep(f1, t, kind, ref, Receive(st));
    var f2 := Affected(f1, t, ref, Respond(st));
    var n := f.nextResponse;
    if kind == Prepare {
      EndAlone(f2, t, kind, ref, Some(n));
    } else {
      RunOutStep(f2, t, kind, ref, StorePrepared(n));
      EndAlone(Affected(f2, t, ref, PutPrepared(n)), t, kind, ref, None);
    }
  }

  /** Without a cached response: the preconnected stream is used if there is one, and a new one otherwise. */
  lemma {:induction false} UncachedAlone(f: Shared, t: nat, kind: Kind, ref: string)
    requires StreamsOk(f) && kind != Preconnect
    ensures
      var (g, r) := RunOut(f, t, kind, ref, TakeStream);
      var st := if f.stream.Some? then f.stream.value else f.nextStream;
      var n := f.nextResponse;
      && g.lock == None && g.stream == None && g.sent == f.sent[st := [ref]] && n in g.produced && g.produced[n] == ref
      && (if kind == Prepare then r == Some(n) && g.prepared == f.prepared
          else r == None && g.prepared == Some(Prefetched(ref, n)))
  {
    RunOutStep(f, t, kind, ref, TakeStream);
    if f.stream.Some? {
      SendAlone(Affected(f, t, ref, TookStream), t, kind, ref, f.stream.value);
      StreamStaysTaken(Affected(f, t, ref, TookStream), t, kind, ref, Send(f.stream.value));
    } else {
      RunOutStep(f, t, kind, ref, Connect);
      var f1 := Affected(f, t, ref, NewStream);
      assert RunOut(f, t, kind, ref, TakeStream) == RunOut(f1, t, kind, ref, Send(f.nextStream));
      SendAlone(f1, t, kind, ref, f.nextStream);
      StreamStaysTaken(f1, t, kind, ref, Send(f.nextStream));
    }
  }

  lemma {:induction false} StreamStaysTaken(f: Shared, t: nat, kind: Kind, ref: string, pc: Pc)
    requires Rank(pc) <= 5 && f.stream == None
    ensures RunOut(f, t, kind, ref, pc).0.stream == None
    decreases Rank(pc)
  {
    if !pc.Finished? {
      var (pc', effect) := StepOf(f, kind, ref, pc, true);
      RunOutStep(f, t, kind, ref, pc);
      StreamStaysTaken(Affected(f, t, ref, effect), t, kind, ref, pc');
    }
  }

  /** One step in which all works. */
  function Next(f: Shared, t: nat, kind: Kind, ref: string, pc: Pc): (Shared, Pc) {
    var (pc', effect) := StepOf(f, kind, ref, pc, true);
    (Affected(f, t, ref, effect), pc')
  }

  /** A preconnect leaves its new stream in the slot; if it cannot connect, nothing changes. */
  lemma {:induction false} PreconnectAlone(f: Shared, t: nat, ref: string)
    ensures Entry(Preconnect, ref) == Connecting
    ensures StepOf(f, Preconnect, ref, Connecting, false) == (Finished(None), Nothing)
    ensures
      var (f1, pc1) := Next(f, t, Preconnect, ref, Connecting);
      Next(f1, t, Preconnect, ref, pc1) ==
      (f.(nextStream := f.nextStream + 1, stream := Some(f.nextStream)), Finished(None))
  {}

  /** A prefetch takes the lock, and asks only for a reference whose response is not there already. */
  lemma {:induction false} PrefetchAlone(f: Shared, t: nat, ref: string)
    requires f.lock == None
    ensures Entry(Prefetch, ref) == if |ref| == 0 then Finished(None) else Lock
    ensures
      var (f1, pc1) := Next(f, t, Prefetch, ref, Lock);
      var there := f.prepared.Some? && f.prepared.value.imageRef == ref;
      && f1 == f.(lock := Some(t))
      && Next(f1, t, Prefetch, ref, pc1) == (f1, if there then Unlock(None) else TakeStream)
  {}

  /** A prepare without a response for it waits for the lock, looks again, and only then asks. */
  lemma {:induction false} PrepareAlone(f: Shared, t: nat, ref: string)
    requires f.lock == None && !(f.prepared.Some? && f.prepared.value.imageRef == ref)
    ensures Entry(Prepare, ref) == TakeFirst && Next(f, t, Prepare, ref, TakeFirst) == (f, Lock)
    ensures
      var (f1, pc1) := Next(f, t, Prepare, ref, Lock);
      f1 == f.(lock := Some(t)) && Next(f1, t, Prepare, ref, pc1) == (f1, TakeStream)
  {}

  /** A task that meets a failure gives up without a response and lets the lock go. */
  lemma {:induction false} FailureGivesUp(f: Shared, kind: Kind, ref: string, pc: Pc)
    requires pc.Connect? || pc.Send? || pc.Receive?
    ensures StepOf(f, kind, ref, pc, false).0 == Unlock(None)
  {}
}
