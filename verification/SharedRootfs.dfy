/**
 Every interleaving of concurrent prepare requests over the shared-rootfs files
 (confidential-data-hub/hub/src/bin/vsock-ttrpc-server.rs, image-rs/src/shared_rootfs.rs).

 A request is a program counter; each file operation, validation, sleep, pull, build and share is one step. The file
 for one key is replaced in one step, by renaming. Files are keyed by sanitized name. `validated`, `leaked`, `made`
 and `entered` record history only: entries that passed validation, keys whose marker operation failed, shares with
 the name of the image they were made for, and the (reference, id) pairs for which preparing was entered.
 */
module SharedRootfs {
  import opened Common
  import opened RootfsCache
  import opened RootfsPrepare

  const PENDING_CACHE_WAIT_MS := 180_000
  const PENDING_CACHE_POLL_MS := 200
  const MAX_SLEEPS := 900

  /** Sleeps begun so far, when the wait began, and when the current sleep ends. */
  datatype Wait = Wait(sleeps: nat, start: nat, until: nat)

  /** Whether the request marked the reference before pulling, and the image id it prepares. */
  datatype Ctx = Ctx(outer: bool, imageId: string)

  datatype WriteStage = Check | First | Second

  datatype Pc =
    // lookup_cached_shared_rootfs
    | ReadRef | ValidateRef(e: Entry) | CheckPending
    | Sleeping(w: Wait) | PollRead(w: Wait) | PollValidate(w: Wait, e: Entry)
    | PollPending(w: Wait) | PollTimeout(w: Wait)
    // prepare_rootfs_response
    | LookupBundle | MakeDirs | OuterMark
    | Pulling(outer: bool) | PullFailed(outer: bool) | WriteBundle(outer: bool, imageId: string)
    // prepare_shared_rootfs_cache_from_bundle
    | PrepRead(c: Ctx) | PrepValidate(c: Ctx, e: Entry) | PrepReadId(c: Ctx) | PrepValidateId(c: Ctx, e: Entry)
    | Writing(c: Ctx, e: Entry, inner: bool, stage: WriteStage)
    | InnerMark(c: Ctx) | Building(c: Ctx) | Sharing(c: Ctx, b: Built) | InnerClear(c: Ctx, result: Result<Entry>)
    | OuterClear(c: Ctx, result: Result<Entry>)
    | Finished(result: Result<Entry>)

  datatype Request = Request(imageRef: string, pc: Pc)

  /** The files and the clock, with the history. */
  datatype Shared = Shared(
    cache: map<string, Content<Entry>>, images: Images, markers: set<string>, clock: nat,
    validated: set<Entry>, leaked: set<string>, made: set<(Share, string)>, entered: set<(string, string)>)

  datatype State = State(files: Shared, requests: map<nat, Request>)

  /** What the surroundings do in a step: whether the file operation works, and what pull, builder and driver return. */
  datatype Choice = Choice(
    ok: bool, touched: bool, imageId: Option<string>, built: Option<Built>, share: Option<Share>, config: seq<byte>)

  datatype Action =
    | Arrive(id: nat, imageRef: string)
    | Step(id: nat, choice: Choice)
    | Tick(ms: nat)
    | ChangeImages(images: Images)

  // ---------------------------------------------------------------- steps

  /** What a step does to the shared files. */
  datatype Effect =
    | Nothing
    | Validated(e: Entry)
    | SetMarker(ok: bool, touched: bool)
    | RemoveMarker(ok: bool)
    | Replace(key: string, e: Entry)
    | PutImage(b: Built)
    | PutShare(share: Share, imageId: string)
    | Enter(imageId: string)

  function Affected(f: Shared, ref: string, effect: Effect): Shared {
    match effect
    case Nothing => f
    case Validated(e) => f.(validated := f.validated + {e})
    case SetMarker(ok, touched) =>
      var k := Sanitize(ref);
      f.(markers := if ok || touched then f.markers + {k} else f.markers,
         leaked := if !ok && touched then f.leaked + {k} else f.leaked)
    case RemoveMarker(ok) =>
      var k := Sanitize(ref);
      f.(markers := if ok then f.markers - {k} else f.markers,
         leaked := if ok then f.leaked else f.leaked + {k})
    case Replace(key, e) => f.(cache := f.cache[Sanitize(key) := Json(e)])
    case PutImage(b) => f.(images := f.images[b.path := b.size])
    case PutShare(share, id) => f.(made := f.made + {(share, Sanitize(id))})
    case Enter(id) => f.(entered := f.entered + {(ref, id)})
  }

  /** The result of opening and parsing a cache file. */
  function ReadFile(f: Shared, key: string, ok: bool): Result<Option<Entry>> {
    match Get(f.cache, Sanitize(key))
    case None => if ok then Ok(None) else Err
    case Some(c) => if ok && c.Json? then Ok(Some(c.entry)) else Err
  }

  function Validate(f: Shared, e: Entry, passed: Pc, failed: Pc): (Pc, Effect) {
    if ValidEntry(f.images, e) then (passed, Validated(e)) else (failed, Nothing)
  }

  function StepLookup(f: Shared, ref: string, pc: Pc, ch: Choice): (Pc, Effect) requires InLookup(pc) {
    match pc
    case ReadRef =>
      (match ReadFile(f, ref, ch.ok)
       case Ok(Some(e)) => (ValidateRef(e), Nothing)
       case _ => (CheckPending, Nothing))
    case ValidateRef(e) => Validate(f, e, Finished(Ok(e)), CheckPending)
    case CheckPending =>
      (if Sanitize(ref) in f.markers then Sleeping(Wait(1, f.clock, f.clock + PENDING_CACHE_POLL_MS))
        else LookupBundle, Nothing)
    case Sleeping(w) => (if f.clock >= w.until then PollRead(w) else pc, Nothing)
    case PollRead(w) =>
      (match ReadFile(f, ref, ch.ok)
       case Ok(Some(e)) => (PollValidate(w, e), Nothing)
       case Ok(None) => (PollPending(w), Nothing)
       case Err => (Finished(Err), Nothing))
    case PollValidate(w, e) => Validate(f, e, Finished(Ok(e)), Finished(Err))
    case PollPending(w) => (if Sanitize(ref) in f.markers then PollTimeout(w) else LookupBundle, Nothing)
    case PollTimeout(w) =>
      (if f.clock - w.start >= PENDING_CACHE_WAIT_MS then LookupBundle
       else Sleeping(Wait(w.sleeps + 1, w.start, f.clock + PENDING_CACHE_POLL_MS)), Nothing)
  }

  function StepPull(f: Shared, ref: string, pc: Pc, ch: Choice): (Pc, Effect) requires InPull(pc) {
    match pc
    case LookupBundle =>
      if ch.imageId.Some? then (PrepRead(Ctx(false, ch.imageId.value)), Enter(ch.imageId.value))
        else (MakeDirs, Nothing)
    case MakeDirs => (if ch.ok then OuterMark else Finished(Err), Nothing)
    case OuterMark => (Pulling(ch.ok), SetMarker(ch.ok, ch.touched))
    case Pulling(outer) => (if ch.imageId.Some? then WriteBundle(outer, ch.imageId.value)
      else PullFailed(outer), Nothing)
    case PullFailed(outer) => (Finished(Err), if outer then RemoveMarker(ch.ok) else Nothing)
    case WriteBundle(outer, id) => (PrepRead(Ctx(outer, id)), Enter(id))
  }

  function StepPrepare(f: Shared, ref: string, pc: Pc, ch: Choice): (Pc, Effect) requires InPrepare(pc) {
    match pc
    case PrepRead(c) =>
      (match ReadFile(f, ref, ch.ok)
       case Ok(Some(e)) => (PrepValidate(c, e), Nothing)
       case Ok(None) => (PrepReadId(c), Nothing)
       case Err => (OuterClear(c, Err), Nothing))
    case PrepValidate(c, e) => Validate(f, e, OuterClear(c, Ok(e)), OuterClear(c, Err))
    case PrepReadId(c) =>
      (match ReadFile(f, c.imageId, ch.ok)
       case Ok(Some(e)) => (PrepValidateId(c, e), Nothing)
       case Ok(None) => (InnerMark(c), Nothing)
       case Err => (OuterClear(c, Err), Nothing))
    case PrepValidateId(c, e) =>
      Validate(f, e, Writing(c, e.(imageRef := ref, imageId := c.imageId), false, Check), OuterClear(c, Err))
    case InnerMark(c) => (if ch.ok then Building(c) else OuterClear(c, Err), SetMarker(ch.ok, ch.touched))
    case Building(c) =>
      (match ch.built
       case None => (InnerClear(c, Err), Nothing)
       case Some(b) => (Sharing(c, b), PutImage(b)))
    case Sharing(c, b) =>
      (match ch.share
       case None => (InnerClear(c, Err), Nothing)
       case Some(share) => (Writing(c, NewEntry(ref, c.imageId, b, share, ch.config), true, Check),
         PutShare(share, c.imageId)))
    case InnerClear(c, result) => (OuterClear(c, result), RemoveMarker(ch.ok))
    case OuterClear(c, result) => (Finished(result), if c.outer then RemoveMarker(ch.ok) else Nothing)
  }

  /** Where a write goes on when it has ended. */
  function AfterWrite(c: Ctx, inner: bool, result: Result<Entry>): Pc {
    if inner then InnerClear(c, result) else OuterClear(c, result)
  }

  function StepWrite(f: Shared, pc: Pc, ch: Choice): (Pc, Effect) requires pc.Writing? {
    var Writing(c, e, inner, stage) := pc;
    if stage == Check then Validate(f, e, Writing(c, e, inner, First), AfterWrite(c, inner, Err))
    else if !ch.ok then (AfterWrite(c, inner, Err), Nothing)
    else if stage == First then
      (if e.imageId == e.imageRef then AfterWrite(c, inner, Ok(e))
        else Writing(c, e, inner, Second), Replace(e.imageRef, e))
    else (AfterWrite(c, inner, Ok(e)), Replace(e.imageId, e))
  }

  predicate InLookup(pc: Pc) {
    pc.ReadRef? || pc.ValidateRef? || pc.CheckPending? || pc.Sleeping? || pc.PollRead? || pc.PollValidate?
      || pc.PollPending? || pc.PollTimeout?
  }

  predicate InPull(pc: Pc) {
    pc.LookupBundle? || pc.MakeDirs? || pc.OuterMark? || pc.Pulling? || pc.PullFailed? || pc.WriteBundle?
  }

  predicate InPrepare(pc: Pc) { !InLookup(pc) && !InPull(pc) && !pc.Writing? && !pc.Finished? }

  function StepOf(f: Shared, ref: string, pc: Pc, ch: Choice): (Pc, Effect) {
    if InLookup(pc) then StepLookup(f, ref, pc, ch)
    else if InPull(pc) then StepPull(f, ref, pc, ch)
    else if pc.Writing? then StepWrite(f, pc, ch)
    else if pc.Finished? then (pc, Nothing)
    else StepPrepare(f, ref, pc, ch)
  }

  predicate Enabled(s: State, a: Action) {
    match a
    case Arrive(r, _) => r !in s.requests
    case Step(r, _) => r in s.requests
    case _ => true
  }

  function Stepped(s: State, r: nat, ch: Choice): State requires r in s.requests {
    var Request(ref, pc) := s.requests[r];
    var (pc', effect) := StepOf(s.files, ref, pc, ch);
    State(Affected(s.files, ref, effect), s.requests[r := Request(ref, pc')])
  }

  function After(s: State, a: Action): State requires Enabled(s, a) {
    match a
    case Arrive(r, ref) => s.(requests := s.requests[r := Request(ref, ReadRef)])
    case Step(r, ch) => Stepped(s, r, ch)
    case Tick(ms) => s.(files := s.files.(clock := s.files.clock + ms))
    case ChangeImages(images) => s.(files := s.files.(images := images))
  }

  // ---------------------------------------------------------------- runs

  /** No request yet and no marker; the cache may hold anything. */
  predicate Initial(s: State) {
    s.requests == map[] && s.files.markers == s.files.leaked == {} && s.files.validated == {} && s.files.made == {}
      && s.files.entered == {}
  }

  predicate Run(states: seq<State>, actions: seq<Action>) {
    && |states| == |actions| + 1 && Initial(states[0])
    && forall i :: 0 <= i < |actions| ==>
      Enabled(states[i], actions[i]) && states[i + 1] == After(states[i], actions[i])
  }

  // ---------------------------------------------------------------- replies were validated, waits are short

  predicate WaitOk(w: Wait, clock: nat) {
    w.start <= clock && 1 <= w.sleeps <= MAX_SLEEPS && w.start + PENDING_CACHE_POLL_MS * w.sleeps <= w.until
  }

  /** A result is an error or a validated entry; a wait has lasted at least as long as its sleeps. */
  predicate ResultOk(f: Shared, r: Result<Entry>) { r.Ok? ==> r.value in f.validated }

  predicate PcOk(f: Shared, pc: Pc) {
    match pc
    case Sleeping(w) => WaitOk(w, f.clock)
    case PollRead(w) => WaitOk(w, f.clock) && w.until <= f.clock
    case PollValidate(w, _) => WaitOk(w, f.clock) && w.until <= f.clock
    case PollPending(w) => WaitOk(w, f.clock) && w.until <= f.clock
    case PollTimeout(w) => WaitOk(w, f.clock) && w.until <= f.clock
    case Writing(_, e, _, stage) => stage != Check ==> e in f.validated
    case InnerClear(_, result) => ResultOk(f, result)
    case OuterClear(_, result) => ResultOk(f, result)
    case Finished(result) => ResultOk(f, result)
    case _ => true
  }

  predicate Grows(f: Shared, g: Shared) {
    f.validated <= g.validated && f.leaked <= g.leaked && f.made <= g.made && f.entered <= g.entered
      && f.clock <= g.clock
  }

  lemma {:induction false} EffectGrows(f: Shared, ref: string, effect: Effect)
    ensures Grows(f, Affected(f, ref, effect))
  {}

  lemma {:induction false} PcStaysOk(f: Shared, g: Shared, pc: Pc)
    requires Grows(f, g) && PcOk(f, pc)
    ensures PcOk(g, pc)
  {}

  lemma {:induction false} LookupKeepsOk(f: Shared, ref: string, pc: Pc, ch: Choice)
    requires PcOk(f, pc) && InLookup(pc)
    ensures var (pc', effect) := StepLookup(f, ref, pc, ch); PcOk(Affected(f, ref, effect), pc')
  {}

  lemma {:induction false} WriteKeepsOk(f: Shared, ref: string, pc: Pc, ch: Choice)
    requires PcOk(f, pc) && pc.Writing?
    ensures var (pc', effect) := StepWrite(f, pc, ch); PcOk(Affected(f, ref, effect), pc')
  {}

  lemma {:induction false} PrepareKeepsOk(f: Shared, ref: string, pc: Pc, ch: Choice)
    requires PcOk(f, pc) && InPrepare(pc)
    ensures var (pc', effect) := StepPrepare(f, ref, pc, ch); PcOk(Affected(f, ref, effect), pc')
  {}

  lemma {:induction false} StepKeepsOk(f: Shared, ref: string, pc: Pc, ch: Choice)
    requires PcOk(f, pc)
    ensures var (pc', effect) := StepOf(f, ref, pc, ch); PcOk(Affected(f, ref, effect), pc')
  {
    if InLookup(pc) {
      LookupKeepsOk(f, ref, pc, ch);
    } else if InPull(pc) {
    } else if pc.Writing? {
      WriteKeepsOk(f, ref, pc, ch);
    } else if pc.Finished? {
    } else {
      PrepareKeepsOk(f, ref, pc, ch);
    }
  }

  ghost predicate AllOk(s: State) { forall r :: r in s.requests ==> PcOk(s.files, s.requests[r].pc) }

  lemma {:induction false} AfterGrows(s: State, a: Action)
    requires Enabled(s, a)
    ensures Grows(s.files, After(s, a).files)
  {
    if a.Step? {
      var Request(ref, pc) := s.requests[a.id];
      EffectGrows(s.files, ref, StepOf(s.files, ref, pc, a.choice).1);
    }
  }

  lemma {:induction false} AfterKeepsOk(s: State, a: Action)
    requires Enabled(s, a) && AllOk(s)
    ensures AllOk(After(s, a))
  {
    var s' := After(s, a);
    AfterGrows(s, a);
    forall r | r in s'.requests ensures PcOk(s'.files, s'.requests[r].pc) {
      if a.Step? && a.id == r {
        StepKeepsOk(s.files, s.requests[r].imageRef, s.requests[r].pc, a.choice);
      } else if r in s.requests {
        PcStaysOk(s.files, s'.files, s.requests[r].pc);
      }
    }
  }

  lemma {:induction false} RunKeepsOk(states: seq<State>, actions: seq<Action>, k: nat)
    requires Run(states, actions) && k < |states|
    ensures AllOk(states[k])
  {
    if k > 0 {
      RunKeepsOk(states, actions, k - 1);
      AfterKeepsOk(states[k - 1], actions[k - 1]);
    }
  }

  lemma {:induction false} OnlyValidIsRecorded(f: Shared, ref: string, pc: Pc, ch: Choice, e: Entry)
    requires e in Affected(f, ref, StepOf(f, ref, pc, ch).1).validated && e !in f.validated
    ensures ValidEntry(f.images, e)
  {}

  lemma {:induction false} ValidatedWasValid(
      states: seq<State>, actions: seq<Action>, k: nat, e: Entry) returns (j: nat)
    requires Run(states, actions) && k < |states| && e in states[k].files.validated
    ensures j < k && ValidEntry(states[j].files.images, e)
  {
    var s, a := states[k - 1], actions[k - 1];
    if e in s.files.validated {
      j := ValidatedWasValid(states, actions, k - 1, e);
    } else {
      assert a.Step?;
      OnlyValidIsRecorded(s.files, s.requests[a.id].imageRef, s.requests[a.id].pc, a.choice, e);
      j := k - 1;
    }
  }

  /**
   Every Ok reply is an entry that was complete in an earlier state of the run: it had both names, a share, a realm
   address, pages and a size, and its image file existed with that size.
   */
  lemma {:induction false} RepliesWereValidated(
      states: seq<State>, actions: seq<Action>, k: nat, r: nat) returns (j: nat)
    requires Run(states, actions) && k < |states| && r in states[k].requests
    requires states[k].requests[r].pc.Finished? && states[k].requests[r].pc.result.Ok?
    ensures j < k
    ensures var e, images := states[k].requests[r].pc.result.value, states[j].files.images;
      && |e.imageRef| > 0 && |e.imageId| > 0 && e.share.shareId > 0 && e.share.sourceRd > 0
      && e.imageSize > 0 && e.share.pageCount > 0 && e.path in images && images[e.path] == e.imageSize
  {
    RunKeepsOk(states, actions, k);
    j := ValidatedWasValid(states, actions, k, states[k].requests[r].pc.result.value);
  }

  predicate Waits(pc: Pc) { pc.Sleeping? || pc.PollRead? || pc.PollValidate? || pc.PollPending? || pc.PollTimeout? }

  function Sleeps(pc: Pc): nat requires Waits(pc) {
    match pc
    case Sleeping(w) => w.sleeps
    case PollRead(w) => w.sleeps
    case PollValidate(w, _) => w.sleeps
    case PollPending(w) => w.sleeps
    case PollTimeout(w) => w.sleeps
  }

  /** A waiter never begins more than 900 sleeps. */
  lemma {:induction false} WaitersSleepAtMost900(states: seq<State>, actions: seq<Action>, k: nat, r: nat)
    requires Run(states, actions) && k < |states| && r in states[k].requests && Waits(states[k].requests[r].pc)
    ensures Sleeps(states[k].requests[r].pc) <= 900
  {
    RunKeepsOk(states, actions, k);
    assert PcOk(states[k].files, states[k].requests[r].pc);
  }

  /** A wait starts with its first sleep, counts every sleep, and once left is not entered again. */
  lemma {:induction false} SleepsAreCounted(f: Shared, ref: string, pc: Pc, ch: Choice)
    ensures var (pc', _) := StepOf(f, ref, pc, ch);
      && (!InLookup(pc) ==> !InLookup(pc'))
      && (Waits(pc) && Waits(pc') ==> Sleeps(pc') == Sleeps(pc) + if pc.PollTimeout? then 1 else 0)
      && (Waits(pc') && !Waits(pc) ==> pc.CheckPending? && Sleeps(pc') == 1)
  {}

  // ---------------------------------------------------------------- markers are cleared

  /** The request still has to clear the marker of its reference. */
  predicate Owes(pc: Pc) {
    match pc
    case Pulling(outer) => outer
    case PullFailed(outer) => outer
    case WriteBundle(outer, _) => outer
    case PrepRead(c) => c.outer
    case PrepValidate(c, _) => c.outer
    case PrepReadId(c) => c.outer
    case PrepValidateId(c, _) => c.outer
    case Writing(c, _, inner, _) => c.outer || inner
    case InnerMark(c) => c.outer
    case Building(_) => true
    case Sharing(_, _) => true
    case InnerClear(_, _) => true
    case OuterClear(c, _) => c.outer
    case _ => false
  }

  predicate OwedBy(s: State, k: string, r: nat) {
    r in s.requests && Sanitize(s.requests[r].imageRef) == k && Owes(s.requests[r].pc)
  }

  ghost predicate MarkersOwed(s: State) {
    forall k :: k in s.files.markers ==> k in s.files.leaked || exists r :: OwedBy(s, k, r)
  }

  /** A step marks only where it then owes, and stops owing only where the marker is gone or its removal failed. */
  predicate PaysDebts(f: Shared, ref: string, pc: Pc, step: (Pc, Effect)) {
    var g, k := Affected(f, ref, step.1), Sanitize(ref);
    && g.markers <= f.markers + {k}
    && (k in g.markers && (k !in f.markers || Owes(pc)) ==> Owes(step.0) || k in g.leaked)
  }

  lemma {:induction false} PullPays(f: Shared, ref: string, pc: Pc, ch: Choice)
    requires InPull(pc)
    ensures PaysDebts(f, ref, pc, StepPull(f, ref, pc, ch))
  {}

  lemma {:induction false} PreparePays(f: Shared, ref: string, pc: Pc, ch: Choice)
    requires InPrepare(pc)
    ensures PaysDebts(f, ref, pc, StepPrepare(f, ref, pc, ch))
  {}

  lemma {:induction false} WritePays(f: Shared, ref: string, pc: Pc, ch: Choice)
    requires pc.Writing?
    ensures PaysDebts(f, ref, pc, StepWrite(f, pc, ch))
  {}

  lemma {:induction false} StepPays(f: Shared, ref: string, pc: Pc, ch: Choice)
    ensures PaysDebts(f, ref, pc, StepOf(f, ref, pc, ch))
  {
    if InLookup(pc) {
    } else if InPull(pc) {
      PullPays(f, ref, pc, ch);
    } else if pc.Writing? {
      WritePays(f, ref, pc, ch);
    } else if pc.Finished? {
    } else {
      PreparePays(f, ref, pc, ch);
    }
  }

  lemma {:induction false} AfterKeepsOwed(s: State, a: Action)
    requires Enabled(s, a) && MarkersOwed(s)
    ensures MarkersOwed(After(s, a))
  {
    var s' := After(s, a);
    AfterGrows(s, a);
    forall k | k in s'.files.markers && k !in s'.files.leaked ensures exists r :: OwedBy(s', k, r) {
      if a.Step? {
        StepPays(s.files, s.requests[a.id].imageRef, s.requests[a.id].pc, a.choice);
        if k !in s.files.markers {
          assert OwedBy(s', k, a.id);
        } else {
          var r :| OwedBy(s, k, r);
          assert OwedBy(s', k, r);
        }
      } else {
        var r :| OwedBy(s, k, r);
        assert OwedBy(s', k, r);
      }
    }
  }

  lemma {:induction false} RunKeepsOwed(states: seq<State>, actions: seq<Action>, k: nat)
    requires Run(states, actions) && k < |states|
    ensures MarkersOwed(states[k])
  {
    if k > 0 {
      RunKeepsOwed(states, actions, k - 1);
      AfterKeepsOwed(states[k - 1], actions[k - 1]);
    }
  }

  /** With no request in flight, the only markers are those whose writing or removal failed. */
  lemma {:induction false} NoMarkerWhenIdle(states: seq<State>, actions: seq<Action>, k: nat)
    requires Run(states, actions) && k < |states|
    requires forall r :: r in states[k].requests ==> states[k].requests[r].pc.Finished?
    ensures states[k].files.markers <= states[k].files.leaked
  {
    RunKeepsOwed(states, actions, k);
  }

  predicate MarkerFault(s: State, a: Action) {
    && a.Step? && a.id in s.requests && !a.choice.ok
    && var effect := StepOf(s.files, s.requests[a.id].imageRef, s.requests[a.id].pc, a.choice).1;
       (effect.SetMarker? && effect.touched) || effect.RemoveMarker?
  }

  lemma {:induction false} NothingLeaks(states: seq<State>, actions: seq<Action>, k: nat)
    requires Run(states, actions) && k < |states|
    requires forall i :: 0 <= i < k ==> !MarkerFault(states[i], actions[i])
    ensures states[k].files.leaked == {}
  {
    if k > 0 {
      NothingLeaks(states, actions, k - 1);
      assert !MarkerFault(states[k - 1], actions[k - 1]);
      LeaksOnlyByFault(states[k - 1], actions[k - 1]);
    }
  }

  lemma {:induction false} LeaksOnlyByFault(s: State, a: Action)
    requires Enabled(s, a) && !MarkerFault(s, a)
    ensures After(s, a).files.leaked == s.files.leaked
  {
    if a.Step? {
      var effect := StepOf(s.files, s.requests[a.id].imageRef, s.requests[a.id].pc, a.choice).1;
      OkOfEffect(s.files, s.requests[a.id].imageRef, s.requests[a.id].pc, a.choice);
    }
  }

  lemma {:induction false} OkOfEffect(f: Shared, ref: string, pc: Pc, ch: Choice)
    ensures var effect := StepOf(f, ref, pc, ch).1;
      effect.SetMarker? || effect.RemoveMarker? ==> effect.ok == ch.ok
  {}

  /** No marker remains once no request is in flight, in every run whose marker operations work. */
  lemma {:induction false} NoMarkerRemains(states: seq<State>, actions: seq<Action>, k: nat)
    requires Run(states, actions) && k < |states|
    requires forall r :: r in states[k].requests ==> states[k].requests[r].pc.Finished?
    requires forall i :: 0 <= i < k ==> !MarkerFault(states[i], actions[i])
    ensures states[k].files.markers == {}
  {
    NoMarkerWhenIdle(states, actions, k);
    NothingLeaks(states, actions, k);
  }

  // ---------------------------------------------------------------- replies carry a share of their image

  predicate Named(e: Entry, key: string) {
    Sanitize(e.imageRef) == Sanitize(key) || Sanitize(e.imageId) == Sanitize(key)
  }

  /** The entry belongs to a prepare of this run, and its share was made for an image of the same name. */
  predicate Known(f: Shared, e: Entry) {
    (e.imageRef, e.imageId) in f.entered && (e.share, Sanitize(e.imageId)) in f.made
  }

  /** The first pair's reference sanitizes like a name of the second. */
  predicate SameName(p: (string, string), q: (string, string)) {
    Sanitize(p.0) == Sanitize(q.0) || Sanitize(p.0) == Sanitize(q.1)
  }

  /** Prepares whose references sanitize alike, or one reference and an id, are for images that sanitize alike. */
  ghost predicate NoClash(f: Shared) {
    forall p, q :: p in f.entered && q in f.entered && SameName(p, q) ==> Sanitize(p.1) == Sanitize(q.1)
  }

  ghost predicate CacheKnown(f: Shared) {
    forall k :: k in f.cache ==>
      f.cache[k].Json? && Known(f, f.cache[k].entry)
        && (Sanitize(f.cache[k].entry.imageRef) == k || Sanitize(f.cache[k].entry.imageId) == k)
  }

  predicate ResultKnown(f: Shared, ref: string, r: Result<Entry>) { r.Ok? ==> Known(f, r.value) && Named(r.value, ref) }

  predicate PcKnown(f: Shared, ref: string, pc: Pc) {
    match pc
    case ValidateRef(e) => Known(f, e) && Named(e, ref)
    case PollValidate(_, e) => Known(f, e) && Named(e, ref)
    case PrepRead(c) => (ref, c.imageId) in f.entered
    case PrepValidate(c, e) => (ref, c.imageId) in f.entered && Known(f, e) && Named(e, ref)
    case PrepReadId(c) => (ref, c.imageId) in f.entered
    case PrepValidateId(c, e) => (ref, c.imageId) in f.entered && Known(f, e) && Named(e, c.imageId)
    case Writing(c, e, _, _) => Known(f, e) && e.imageRef == ref
    case InnerMark(c) => (ref, c.imageId) in f.entered
    case Building(c) => (ref, c.imageId) in f.entered
    case Sharing(c, _) => (ref, c.imageId) in f.entered
    case InnerClear(_, result) => ResultKnown(f, ref, result)
    case OuterClear(_, result) => ResultKnown(f, ref, result)
    case Finished(result) => ResultKnown(f, ref, result)
    case _ => true
  }

  lemma {:induction false} KnownStays(f: Shared, g: Shared, ref: string, pc: Pc)
    requires Grows(f, g) && PcKnown(f, ref, pc)
    ensures PcKnown(g, ref, pc)
  {}

  lemma {:induction false} LookupKeepsKnown(f: Shared, ref: string, pc: Pc, ch: Choice)
    requires PcKnown(f, ref, pc) && CacheKnown(f) && InLookup(pc)
    ensures var (pc', effect) := StepLookup(f, ref, pc, ch); PcKnown(Affected(f, ref, effect), ref, pc')
  {}

  lemma {:induction false} WriteKeepsKnown(f: Shared, ref: string, pc: Pc, ch: Choice)
    requires PcKnown(f, ref, pc) && pc.Writing?
    ensures var (pc', effect) := StepWrite(f, pc, ch); PcKnown(Affected(f, ref, effect), ref, pc')
  {}

  lemma {:induction false} AliasIsKnown(f: Shared, ref: string, imageId: string, e: Entry)
    requires (ref, imageId) in f.entered && Known(f, e) && Named(e, imageId) && NoClash(f)
    ensures Known(f, e.(imageRef := ref, imageId := imageId))
  {
    var p, q := (e.imageRef, e.imageId), (ref, imageId);
    assert p in f.entered && q in f.entered && (SameName(p, q) ==> Sanitize(p.1) == Sanitize(q.1));
  }

  lemma {:induction false} PrepareKeepsKnown(f: Shared, ref: string, pc: Pc, ch: Choice)
    requires PcKnown(f, ref, pc) && CacheKnown(f) && NoClash(f) && InPrepare(pc)
    ensures var (pc', effect) := StepPrepare(f, ref, pc, ch); PcKnown(Affected(f, ref, effect), ref, pc')
  {
    if pc.PrepValidateId? {
      AliasIsKnown(f, ref, pc.c.imageId, pc.e);
    }
  }

  lemma {:induction false} StepKeepsKnown(f: Shared, ref: string, pc: Pc, ch: Choice)
    requires PcKnown(f, ref, pc) && CacheKnown(f) && NoClash(f)
    ensures var (pc', effect) := StepOf(f, ref, pc, ch); PcKnown(Affected(f, ref, effect), ref, pc')
  {
    if InLookup(pc) {
      LookupKeepsKnown(f, ref, pc, ch);
    } else if InPull(pc) {
    } else if pc.Writing? {
      WriteKeepsKnown(f, ref, pc, ch);
    } else if pc.Finished? {
    } else {
      PrepareKeepsKnown(f, ref, pc, ch);
    }
  }

  lemma {:induction false} EffectKeepsCache(f: Shared, ref: string, effect: Effect)
    requires CacheKnown(f)
    requires effect.Replace? ==>
      Known(f, effect.e) && (effect.key == effect.e.imageRef || effect.key == effect.e.imageId)
    ensures CacheKnown(Affected(f, ref, effect))
  {
    var g := Affected(f, ref, effect);
    EffectGrows(f, ref, effect);
    forall k | k in g.cache
      ensures g.cache[k].Json? && Known(g, g.cache[k].entry)
      ensures (Sanitize(g.cache[k].entry.imageRef) == k || Sanitize(g.cache[k].entry.imageId) == k)
    {
      assert (effect.Replace? && k == Sanitize(effect.key)) || g.cache[k] == f.cache[k];
    }
  }

  lemma {:induction false} OnlyWritesReplace(f: Shared, ref: string, pc: Pc, ch: Choice)
    ensures var effect := StepOf(f, ref, pc, ch).1;
      effect.Replace? ==> pc.Writing? && effect.e == pc.e && (effect.key == pc.e.imageRef || effect.key == pc.e.imageId)
  {}

  ghost predicate AllKnown(s: State) {
    CacheKnown(s.files) && forall r :: r in s.requests ==> PcKnown(s.files, s.requests[r].imageRef, s.requests[r].pc)
  }

  lemma {:induction false} AfterKeepsKnown(s: State, a: Action)
    requires Enabled(s, a) && AllKnown(s) && NoClash(s.files)
    ensures AllKnown(After(s, a))
  {
    var s' := After(s, a);
    AfterGrows(s, a);
    if a.Step? {
      var Request(ref, pc) := s.requests[a.id];
      OnlyWritesReplace(s.files, ref, pc, a.choice);
      EffectKeepsCache(s.files, ref, StepOf(s.files, ref, pc, a.choice).1);
    }
    forall r | r in s'.requests ensures PcKnown(s'.files, s'.requests[r].imageRef, s'.requests[r].pc) {
      if a.Step? && a.id == r {
        StepKeepsKnown(s.files, s.requests[r].imageRef, s.requests[r].pc, a.choice);
      } else if r in s.requests {
        KnownStays(s.files, s'.files, s.requests[r].imageRef, s.requests[r].pc);
      }
    }
  }

  lemma {:induction false} RunKeepsKnown(states: seq<State>, actions: seq<Action>, k: nat)
    requires Run(states, actions) && k < |states| && states[0].files.cache == map[] && NoClash(states[k].files)
    ensures AllKnown(states[k])
  {
    if k > 0 {
      AfterGrows(states[k - 1], actions[k - 1]);
      assert NoClash(states[k - 1].files);
      RunKeepsKnown(states, actions, k - 1);
      AfterKeepsKnown(states[k - 1], actions[k - 1]);
    }
  }

  /**
   From an empty cache and without name clashes, the share of every Ok reply was made in this run for the image that
   the reply names, and that image is the one with which the requested reference was ever prepared, up to sanitizing.
   */
  lemma {:induction false} RepliesCarryTheirShare(
      states: seq<State>, actions: seq<Action>, k: nat, r: nat, q: (string, string))
    requires Run(states, actions) && k < |states| && states[0].files.cache == map[] && NoClash(states[k].files)
    requires r in states[k].requests && states[k].requests[r].pc.Finished? && states[k].requests[r].pc.result.Ok?
    requires q in states[k].files.entered && Sanitize(q.0) == Sanitize(states[k].requests[r].imageRef)
    ensures var e := states[k].requests[r].pc.result.value;
      Sanitize(e.imageId) == Sanitize(q.1) && (e.share, Sanitize(e.imageId)) in states[k].files.made
  {
    RunKeepsKnown(states, actions, k);
    var ref, e := states[k].requests[r].imageRef, states[k].requests[r].pc.result.value;
    assert PcKnown(states[k].files, ref, states[k].requests[r].pc);
    var p := (e.imageRef, e.imageId);
    assert p in states[k].files.entered;
    assert SameName(q, p);
  }

  /** Every Ok reply belongs to a prepare of this run whose reference or id has the requested reference's name. */
  lemma {:induction false} RepliesWerePrepared(states: seq<State>, actions: seq<Action>, k: nat, r: nat)
    requires Run(states, actions) && k < |states| && states[0].files.cache == map[] && NoClash(states[k].files)
    requires r in states[k].requests && states[k].requests[r].pc.Finished? && states[k].requests[r].pc.result.Ok?
    ensures var e := states[k].requests[r].pc.result.value;
      (e.imageRef, e.imageId) in states[k].files.entered && Named(e, states[k].requests[r].imageRef)
  {
    RunKeepsKnown(states, actions, k);
    assert PcKnown(states[k].files, states[k].requests[r].imageRef, states[k].requests[r].pc);
  }
}
