/**
 The digest sidecar of a rootfs image (image-rs/src/shared_rootfs.rs, `rootfs_digest_for_image`): every interleaving of
 concurrent queries with changes of the image.

 A query stats the image, reads the sidecar and, unless its size, time and length fit, hashes the file and replaces the
 sidecar through a temporary file. `past` records history only: every size and time the image ever had, with the
 contents it then had.
 */
module DigestSidecar {
  import opened Common

  datatype Image = Image(content: seq<byte>, mtime: int)
  datatype Stamp = Stamp(size: nat, mtime: int)
  datatype Record = Record(stamp: Stamp, sha256: string)
  datatype Sidecar = Parsed(record: Record) | Unparsable

  function StampOf(i: Image): Stamp { Stamp(|i.content|, i.mtime) }

  const DIGEST_LENGTH := 64

  /** `read_rootfs_digest_sidecar`: anything that does not fit the stamp is ignored. */
  function Fitting(sidecar: Option<Sidecar>, stamp: Stamp): Option<string> {
    if sidecar.Some? && sidecar.value.Parsed? && sidecar.value.record.stamp == stamp
      && |sidecar.value.record.sha256| == DIGEST_LENGTH
    then Some(sidecar.value.record.sha256)
    else None
  }

  const READ_SIZE := 64 * 1024

  /** The loop of `sha256_file`; `lengths` gives how much each read returns. */
  method ReadWhole(content: seq<byte>, lengths: nat -> nat) returns (hashed: seq<byte>)
    ensures hashed == content
  {
    hashed := [];
    var turn := 0;
    while |hashed| < |content|
      invariant hashed <= content
      decreases |content| - |hashed|
    {
      var left := |content| - |hashed|;
      var most := if left < READ_SIZE then left else READ_SIZE;
      var n := 1 + lengths(turn) % most;
      turn := turn + 1;
      hashed := hashed + content[|hashed|..|hashed| + n];
    }
  }

  datatype Query =
    | Reading(stamp: Stamp)
    | Hashing(stamp: Stamp)
    | WritingTmp(record: Record)
    | Renaming(record: Record)
    | Answered(stamp: Stamp, sha256: string)
    | Failed

  type Past = set<(Stamp, seq<byte>)>

  datatype State = State(
    image: Option<Image>, sidecar: Option<Sidecar>, tmp: Option<Sidecar>, queries: map<nat, Query>, past: Past)

  datatype Action =
    | Ask(id: nat)
    | Step(id: nat, ok: bool)
    | Change(image: Image)
    | RemoveImage
    | RemoveSidecar

  predicate Enabled(s: State, a: Action) {
    match a
    case Ask(q) => q !in s.queries
    case Step(q, _) => q in s.queries
    case _ => true
  }

  function Answer(s: State, q: nat, query: Query): State { s.(queries := s.queries[q := query]) }

  /** Where a query goes from what it finds. */
  function NextQuery(
      hash: seq<byte> -> string, image: Option<Image>, sidecar: Option<Sidecar>, tmp: Option<Sidecar>, q: Query,
      ok: bool): Query {
    match q
    case Reading(stamp) =>
      if !ok then Failed
      else (match Fitting(sidecar, stamp)
            case Some(sha) => Answered(stamp, sha)
            case None => Hashing(stamp))
    case Hashing(stamp) => if ok && image.Some? then WritingTmp(Record(stamp, hash(image.value.content))) else Failed
    case WritingTmp(record) => if ok then Renaming(record) else Failed
    case Renaming(record) => if ok && tmp.Some? then Answered(record.stamp, record.sha256) else Failed
    case _ => q
  }

  /** The sidecar and the temporary file after the step. */
  function NextFiles(
      sidecar: Option<Sidecar>, tmp: Option<Sidecar>, q: Query, ok: bool): (Option<Sidecar>, Option<Sidecar>) {
    match q
    case WritingTmp(record) => (sidecar, Some(if ok then Parsed(record) else Unparsable))
    case Renaming(_) => if ok && tmp.Some? then (tmp, None) else (sidecar, tmp)
    case _ => (sidecar, tmp)
  }

  function Stepped(hash: seq<byte> -> string, s: State, q: nat, ok: bool): State requires q in s.queries {
    var (sidecar, tmp) := NextFiles(s.sidecar, s.tmp, s.queries[q], ok);
    State(s.image, sidecar, tmp, s.queries[q := NextQuery(hash, s.image, s.sidecar, s.tmp, s.queries[q], ok)], s.past)
  }

  function After(hash: seq<byte> -> string, s: State, a: Action): State requires Enabled(s, a) {
    match a
    case Ask(q) => Answer(s, q, if s.image.Some? then Reading(StampOf(s.image.value)) else Failed)
    case Step(q, ok) => Stepped(hash, s, q, ok)
    case Change(image) => s.(image := Some(image), past := s.past + {(StampOf(image), image.content)})
    case RemoveImage => s.(image := None)
    case RemoveSidecar => s.(sidecar := None)
  }

  /** No image yet; a sidecar that is there does not parse. */
  predicate Initial(s: State) {
    s.image == None && s.queries == map[] && s.past == {} && (s.sidecar.Some? ==> s.sidecar.value.Unparsable?)
      && (s.tmp.Some? ==> s.tmp.value.Unparsable?)
  }

  ghost predicate Run(hash: seq<byte> -> string, states: seq<State>, actions: seq<Action>) {
    && |states| == |actions| + 1 && Initial(states[0])
    && forall i :: 0 <= i < |actions| ==>
      Enabled(states[i], actions[i]) && states[i + 1] == After(hash, states[i], actions[i])
  }

  /** A query whose operation fails, or finds nothing to hash or rename, fails and leaves the sidecar as it is. */
  lemma {:induction false} FailedQueryFails(hash: seq<byte> -> string, s: State, q: nat, ok: bool)
    requires q in s.queries && !s.queries[q].Answered?
    requires !ok || (s.queries[q].Hashing? && s.image.None?) || (s.queries[q].Renaming? && s.tmp.None?)
    ensures Stepped(hash, s, q, ok).queries[q] == Failed && Stepped(hash, s, q, ok).sidecar == s.sidecar
  {}

  /** What a query holds: the stamp it saw, and a digest for it once it has one. */
  function Held(q: Query): Option<(Stamp, Option<string>)> {
    match q
    case Reading(stamp) => Some((stamp, None))
    case Hashing(stamp) => Some((stamp, None))
    case WritingTmp(r) => Some((r.stamp, Some(r.sha256)))
    case Renaming(r) => Some((r.stamp, Some(r.sha256)))
    case Answered(stamp, sha) => Some((stamp, Some(sha)))
    case Failed => None
  }

  // ---------------------------------------------------------------- every change brings a new stamp

  ghost predicate Had(past: Past, stamp: Stamp) { exists p :: p in past && p.0 == stamp }

  predicate Fresh(s: State, a: Action) {
    a.Change? ==> forall p :: p in s.past ==> p.0 != StampOf(a.image)
  }

  /** The stamp is one the image had, and if it still has it, the digest is that of the contents. */
  ghost predicate Current(hash: seq<byte> -> string, s: State, stamp: Stamp, sha: Option<string>) {
    Had(s.past, stamp) && (sha.Some? && s.image.Some? && StampOf(s.image.value) == stamp ==>
      sha.value == hash(s.image.value.content))
  }

  ghost predicate SidecarCurrent(hash: seq<byte> -> string, s: State, f: Option<Sidecar>) {
    f.Some? && f.value.Parsed? ==> Current(hash, s, f.value.record.stamp, Some(f.value.record.sha256))
  }

  ghost predicate QueryCurrent(hash: seq<byte> -> string, s: State, q: Query) {
    Held(q).Some? ==> Current(hash, s, Held(q).value.0, Held(q).value.1)
  }

  ghost predicate Inv(hash: seq<byte> -> string, s: State) {
    && (s.image.Some? ==> (StampOf(s.image.value), s.image.value.content) in s.past)
    && SidecarCurrent(hash, s, s.sidecar) && SidecarCurrent(hash, s, s.tmp)
    && forall q :: q in s.queries ==> QueryCurrent(hash, s, s.queries[q])
  }

  /** What a query takes over from the sidecar or computes is right. */
  lemma {:induction false} CurrentStep(hash: seq<byte> -> string, s: State, q: nat, ok: bool)
    requires Inv(hash, s) && q in s.queries
    ensures QueryCurrent(hash, s, NextQuery(hash, s.image, s.sidecar, s.tmp, s.queries[q], ok))
  {}

  lemma {:induction false} StepKeepsInv(hash: seq<byte> -> string, s: State, a: Action)
    requires Inv(hash, s) && Enabled(s, a) && Fresh(s, a)
    ensures Inv(hash, After(hash, s, a))
  {
    if a.Step? {
      CurrentStep(hash, s, a.id, a.ok);
    }
  }

  lemma {:induction false} RunKeepsInv(hash: seq<byte> -> string, states: seq<State>, actions: seq<Action>, k: nat)
    requires Run(hash, states, actions) && k < |states|
    requires forall i :: 0 <= i < k ==> Fresh(states[i], actions[i])
    ensures Inv(hash, states[k])
  {
    if k > 0 {
      RunKeepsInv(hash, states, actions, k - 1);
      StepKeepsInv(hash, states[k - 1], actions[k - 1]);
    }
  }

  /**
   If every change gives the image a size or time it never had before, then a digest answered for the image's present
   size and time is the digest of its present contents, whatever ran concurrently.
   */
  lemma {:induction false} AnswerIsDigestOfContents(
      hash: seq<byte> -> string, states: seq<State>, actions: seq<Action>, k: nat, q: nat)
    requires Run(hash, states, actions) && k < |states|
    requires forall i :: 0 <= i < k ==> Fresh(states[i], actions[i])
    requires q in states[k].queries && states[k].queries[q].Answered?
    requires states[k].image.Some? && states[k].queries[q].stamp == StampOf(states[k].image.value)
    ensures states[k].queries[q].sha256 == hash(states[k].image.value.content)
  {
    RunKeepsInv(hash, states, actions, k);
    assert QueryCurrent(hash, states[k], states[k].queries[q]);
  }

  // ---------------------------------------------------------------- a stamp may come back with the same contents

  /** A change brings back an earlier stamp only with the contents of then, and none hits a query about to hash. */
  predicate Faithful(s: State, a: Action) {
    && (a.Change? ==>
      && (forall p :: p in s.past && p.0 == StampOf(a.image) ==> p.1 == a.image.content)
      && (forall q :: q in s.queries ==> !s.queries[q].Reading? && !s.queries[q].Hashing?))
  }

  /** The digest is that of every contents the image ever had with this stamp. */
  ghost predicate Truthful(hash: seq<byte> -> string, past: Past, stamp: Stamp, sha: Option<string>) {
    Had(past, stamp) && (sha.Some? ==> forall p :: p in past && p.0 == stamp ==> sha.value == hash(p.1))
  }

  ghost predicate SidecarTruthful(hash: seq<byte> -> string, past: Past, f: Option<Sidecar>) {
    f.Some? && f.value.Parsed? ==> Truthful(hash, past, f.value.record.stamp, Some(f.value.record.sha256))
  }

  ghost predicate QueryTruthful(hash: seq<byte> -> string, past: Past, q: Query) {
    Held(q).Some? ==> Truthful(hash, past, Held(q).value.0, Held(q).value.1)
  }

  /** Stamps determine contents, and a query about to hash still has the image it saw. */
  ghost predicate Steady(s: State) {
    && (forall p, q :: p in s.past && q in s.past && p.0 == q.0 ==> p.1 == q.1)
    && (s.image.Some? ==> (StampOf(s.image.value), s.image.value.content) in s.past)
    && (forall q :: q in s.queries && (s.queries[q].Reading? || s.queries[q].Hashing?) && s.image.Some? ==>
      s.queries[q].stamp == StampOf(s.image.value))
  }

  ghost predicate FaithfulInv(hash: seq<byte> -> string, s: State) {
    && Steady(s) && SidecarTruthful(hash, s.past, s.sidecar) && SidecarTruthful(hash, s.past, s.tmp)
    && forall q :: q in s.queries ==> QueryTruthful(hash, s.past, s.queries[q])
  }

  lemma {:induction false} StaysSteady(hash: seq<byte> -> string, s: State, a: Action)
    requires Steady(s) && Enabled(s, a) && Faithful(s, a)
    ensures Steady(After(hash, s, a))
  {}

  lemma {:induction false} TruthfulStep(hash: seq<byte> -> string, s: State, q: nat, ok: bool)
    requires FaithfulInv(hash, s) && q in s.queries
    ensures QueryTruthful(hash, s.past, NextQuery(hash, s.image, s.sidecar, s.tmp, s.queries[q], ok))
  {}

  lemma {:induction false} StepKeepsTruthful(hash: seq<byte> -> string, s: State, a: Action)
    requires FaithfulInv(hash, s) && Enabled(s, a) && Faithful(s, a)
    ensures FaithfulInv(hash, After(hash, s, a))
  {
    StaysSteady(hash, s, a);
    if a.Step? {
      TruthfulStep(hash, s, a.id, a.ok);
    }
  }

  lemma {:induction false} RunKeepsTruthful(hash: seq<byte> -> string, states: seq<State>, actions: seq<Action>, k: nat)
    requires Run(hash, states, actions) && k < |states|
    requires forall i :: 0 <= i < k ==> Faithful(states[i], actions[i])
    ensures FaithfulInv(hash, states[k])
  {
    if k > 0 {
      RunKeepsTruthful(hash, states, actions, k - 1);
      StepKeepsTruthful(hash, states[k - 1], actions[k - 1]);
    }
  }

  /**
   If size and time determine the contents, an answer is the digest of the contents with the stamp it was given for.
   */
  lemma {:induction false} AnswerMatchesStamp(
    hash: seq<byte> -> string, states: seq<State>, actions: seq<Action>, k: nat, q: nat, content: seq<byte>)
    requires Run(hash, states, actions) && k < |states|
    requires forall i :: 0 <= i < k ==> Faithful(states[i], actions[i])
    requires q in states[k].queries && states[k].queries[q].Answered?
    requires (states[k].queries[q].stamp, content) in states[k].past
    ensures states[k].queries[q].sha256 == hash(content)
  {
    RunKeepsTruthful(hash, states, actions, k);
    assert QueryTruthful(hash, states[k].past, states[k].queries[q]);
  }

  /** Runs the actions one after the other. */
  function Play(hash: seq<byte> -> string, s: State, actions: seq<Action>): Option<State>
    decreases |actions|
  {
    if actions == [] then Some(s)
    else if Enabled(s, actions[0]) then Play(hash, After(hash, s, actions[0]), actions[1..])
    else None
  }

  lemma {:induction false} PlayMore(hash: seq<byte> -> string, s: State, a: Action, rest: seq<Action>)
    requires Enabled(s, a)
    ensures Play(hash, s, [a] + rest) == Play(hash, After(hash, s, a), rest)
  {
    assert ([a] + rest)[1..] == rest;
  }

  /** The four steps of a query that hashes. */
  function Steps(q: nat, rest: seq<Action>): seq<Action> {
    var step := Step(q, true);
    [step] + ([step] + ([step] + ([step] + rest)))
  }

  /** A first query on a new image leaves its digest in the sidecar. */
  lemma {:induction false} FirstQuery(
      hash: seq<byte> -> string, s0: State, a: Image, rest: seq<Action>) returns (s: State)
    requires s0.image == None && s0.sidecar == None && s0.queries == map[]
    ensures s.sidecar == Some(Parsed(Record(StampOf(a), hash(a.content)))) && 1 !in s.queries
    ensures Play(hash, s0, [Change(a)] + ([Ask(0)] + Steps(0, rest))) == Play(hash, s, rest)
  {
    var step := Step(0, true);
    PlayMore(hash, s0, Change(a), [Ask(0)] + ([step] + ([step] + ([step] + ([step] + rest)))));
    var s1 := After(hash, s0, Change(a));
    PlayMore(hash, s1, Ask(0), [step] + ([step] + ([step] + ([step] + rest))));
    var s2 := After(hash, s1, Ask(0));
    PlayMore(hash, s2, step, [step] + ([step] + ([step] + rest)));
    var s3 := After(hash, s2, step);
    assert s3.queries[0] == Hashing(StampOf(a));
    PlayMore(hash, s3, step, [step] + ([step] + rest));
    var s4 := After(hash, s3, step);
    assert s4.queries[0] == WritingTmp(Record(StampOf(a), hash(a.content)));
    PlayMore(hash, s4, step, [step] + rest);
    var s5 := After(hash, s4, step);
    PlayMore(hash, s5, step, rest);
    s := After(hash, s5, step);
  }

  /**
   It is not enough that each single change alters size or time: from `a` through `b` to another `c` with the stamp of
   `a`, the second query is answered with the digest of `a`.
   */
  lemma {:induction false} ReturningStampFools(
      hash: seq<byte> -> string, s0: State, a: Image, b: Image, c: Image) returns (end: State)
    requires s0.image == None && s0.sidecar == None && s0.queries == map[]
    requires StampOf(a) != StampOf(b) && StampOf(a) == StampOf(c) && |hash(a.content)| == DIGEST_LENGTH
    ensures
      var later := [Change(b)] + ([Change(c)] + ([Ask(1)] + ([Step(1, true)] + [])));
      Play(hash, s0, [Change(a)] + ([Ask(0)] + Steps(0, later))) == Some(end)
    ensures end.image == Some(c) && 1 in end.queries && end.queries[1] == Answered(StampOf(c), hash(a.content))
  {
    var later := [Change(b)] + ([Change(c)] + ([Ask(1)] + ([Step(1, true)] + [])));
    var s := FirstQuery(hash, s0, a, later);
    PlayMore(hash, s, Change(b), [Change(c)] + ([Ask(1)] + ([Step(1, true)] + [])));
    var s1 := After(hash, s, Change(b));
    PlayMore(hash, s1, Change(c), [Ask(1)] + ([Step(1, true)] + []));
    var s2 := After(hash, s1, Change(c));
    PlayMore(hash, s2, Ask(1), [Step(1, true)] + []);
    var s3 := After(hash, s2, Ask(1));
    assert s3.queries[1] == Reading(StampOf(c));
    PlayMore(hash, s3, Step(1, true), []);
    end := After(hash, s3, Step(1, true));
  }

  // ---------------------------------------------------------------- one query after the other

  /** The answer of a query that nothing disturbs, and the sidecar it leaves. */
  function Alone(hash: seq<byte> -> string, sidecar: Option<Sidecar>, image: Image): (string, Option<Sidecar>) {
    match Fitting(sidecar, StampOf(image))
    case Some(sha) => (sha, sidecar)
    case None => (hash(image.content), Some(Parsed(Record(StampOf(image), hash(image.content)))))
  }

  /** The sidecar is believed exactly if it parses, has the image's size and time, and a digest of 64 characters. */
  lemma {:induction false} AloneAnswers(hash: seq<byte> -> string, sidecar: Option<Sidecar>, image: Image)
    ensures sidecar.None? || sidecar.value.Unparsable? ==> Alone(hash, sidecar, image).0 == hash(image.content)
    ensures sidecar.Some? && sidecar.value.Parsed? ==>
      var r := sidecar.value.record;
      var fits := r.stamp.size == |image.content| && r.stamp.mtime == image.mtime && |r.sha256| == 64;
      Alone(hash, sidecar, image).0 == if fits then r.sha256 else hash(image.content)
  {}

  lemma {:induction false} AloneIsPlayed(
      hash: seq<byte> -> string, s: State, q: nat) returns (actions: seq<Action>, end: State)
    requires s.image.Some? && q !in s.queries
    ensures Play(hash, s, actions) == Some(end) && end.image == s.image
    ensures end.sidecar == Alone(hash, s.sidecar, s.image.value).1
    ensures q in end.queries
    ensures end.queries[q] == Answered(StampOf(s.image.value), Alone(hash, s.sidecar, s.image.value).0)
  {
    var step := Step(q, true);
    var s1 := After(hash, s, Ask(q));
    var s2 := After(hash, s1, step);
    if Fitting(s.sidecar, StampOf(s.image.value)).Some? {
      PlayMore(hash, s, Ask(q), [step] + []);
      PlayMore(hash, s1, step, []);
      actions, end := [Ask(q)] + ([step] + []), s2;
    } else {
      PlayMore(hash, s, Ask(q), [step] + ([step] + ([step] + ([step] + []))));
      PlayMore(hash, s1, step, [step] + ([step] + ([step] + [])));
      PlayMore(hash, s2, step, [step] + ([step] + []));
      var s3 := After(hash, s2, step);
      PlayMore(hash, s3, step, [step] + []);
      var s4 := After(hash, s3, step);
      PlayMore(hash, s4, step, []);
      actions, end := [Ask(q)] + ([step] + ([step] + ([step] + ([step] + [])))), After(hash, s4, step);
    }
  }

  /** The answers when the image is queried in each of these forms in turn, and the last sidecar. */
  function InTurn(hash: seq<byte> -> string, images: seq<Image>): (r: (seq<string>, Option<Sidecar>))
    ensures |r.0| == |images|
  {
    if images == [] then ([], None)
    else
      var n := |images| - 1;
      var (answers, sidecar) := InTurn(hash, images[..n]);
      var (answer, sidecar') := Alone(hash, sidecar, images[n]);
      (answers + [answer], sidecar')
  }

  /** The sidecar always holds the last answer with the stamp it was given for. */
  lemma {:induction false} SidecarIsLastAnswer(hash: seq<byte> -> string, images: seq<Image>)
    requires images != []
    ensures var (answers, sidecar) := InTurn(hash, images);
      sidecar == Some(Parsed(Record(StampOf(images[|images| - 1]), answers[|images| - 1])))
  {
    var n := |images| - 1;
    if n > 0 {
      SidecarIsLastAnswer(hash, images[..n]);
    }
  }

  ghost predicate AllRight(hash: seq<byte> -> string, images: seq<Image>, answers: seq<string>) {
    |answers| == |images| && forall i :: 0 <= i < |images| ==> answers[i] == hash(images[i].content)
  }

  /** Whenever the stamp is that of the query before, so is the digest. */
  ghost predicate StampsTell(hash: seq<byte> -> string, images: seq<Image>) {
    forall i :: 0 < i < |images| && StampOf(images[i]) == StampOf(images[i - 1]) ==>
      hash(images[i].content) == hash(images[i - 1].content)
  }

  /**
   Undisturbed queries are all answered rightly exactly when successively queried contents with one stamp have one
   digest.
   */
  lemma {:induction false} AnswersAreRightIff(hash: seq<byte> -> string, images: seq<Image>)
    requires forall x :: |hash(x)| == DIGEST_LENGTH
    ensures AllRight(hash, images, InTurn(hash, images).0) <==> StampsTell(hash, images)
  {
    if images != [] {
      var n := |images| - 1;
      var before := images[..n];
      var answers := InTurn(hash, images).0;
      AnswersAreRightIff(hash, before);
      assert answers[..n] == InTurn(hash, before).0;
      assert AllRight(hash, images, answers) <==>
        AllRight(hash, before, answers[..n]) && answers[n] == hash(images[n].content);
      if n > 0 {
        SidecarIsLastAnswer(hash, before);
        assert AllRight(hash, before, answers[..n]) && StampOf(images[n]) == StampOf(images[n - 1]) ==>
          answers[n] == hash(images[n - 1].content);
      }
    }
  }
}
