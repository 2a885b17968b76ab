/**
 The KBS clients (attestation-agent/kbs_protocol/src/client): the RCAR client with its nested retries, and the client
 with a token provider.

 A world fixes what server and providers answer. Its functions take the number of the outside call, so the same
 question may get a different answer each time: a world stands for an arbitrary behaviour. Keys are numbered.
 */
module KbsClient {
  import opened Common

  type Key = nat
  type Token = string
  type Secret = seq<byte>

  const RCAR_MAX_ATTEMPT := 5
  const ATTEST_MAX_ATTEMPT := 3
  const KBS_GET_RESOURCE_MAX_ATTEMPT := 3
  const OK := 200
  const UNAUTHORIZED := 401

  /** The outcome of an HTTP request. `body` and `errorInfo` say what the body parses as. */
  datatype Http<+T> = Broken(retriable: bool) | Answer(status: nat, body: Option<T>, errorInfo: bool)

  /** `selected` is whether the hash algorithm is absent or known. */
  datatype Challenge = Challenge(nonce: string, selected: bool)

  datatype World = World(
    teeType: nat -> Option<nat>,
    auth: (nat, nat) -> Http<Challenge>,
    evidence: (nat, Key, string) -> Option<string>,
    attest: (nat, Key, string) -> Http<Token>,
    resource: (nat, Option<Token>) -> Http<Secret>,
    provide: nat -> Option<(Token, Key)>,
    wellFormed: Token -> bool,
    stillValid: (nat, Token) -> bool,
    exports: Key -> bool,
    decrypt: (Key, Secret) -> Option<Secret>)

  /** `calls` counts every outside call, `requests` the HTTP requests among them. */
  datatype Client = Client(tee: Option<nat>, key: Key, token: Option<Token>, calls: nat, requests: nat)

  function Called(c: Client): Client { c.(calls := c.calls + 1) }
  function Requested(c: Client): Client { c.(calls := c.calls + 1, requests := c.requests + 1) }

  // ---------------------------------------------------------------- the RCAR client

  /** The inner loop of a handshake, with `left` further attempts: the last answer, if any. */
  function Attested(w: World, c: Client, evidence: string, left: nat): (Client, Option<Http<Token>>)
    decreases left, c
  {
    if left == 0 then (c, None)
    else
      var answer := w.attest(c.calls, c.key, evidence);
      if answer.Answer? then (Requested(c), Some(answer))
      else if answer.retriable then Attested(w, Requested(c), evidence, left - 1)
      else (Requested(c), None)
  }

  /** `rcar_handshake`, from the challenge on. */
  function Responded(w: World, c: Client, challenge: Challenge): (Client, bool) {
    if !challenge.selected || !w.exports(c.key) then (c, false)
    else
      match w.evidence(c.calls, c.key, challenge.nonce)
      case None => (Called(c), false)
      case Some(evidence) =>
        var (c', answer) := Attested(w, Called(c), evidence, ATTEST_MAX_ATTEMPT);
        if answer.Some? && answer.value.Answer? && answer.value.status == OK && answer.value.body.Some?
          && w.wellFormed(answer.value.body.value)
        then (c'.(token := answer.value.body), true)
        else (c', false)
  }

  function Handshaken(w: World, c: Client): (Client, bool) {
    var c1 := if c.tee.None? then Called(c).(tee := w.teeType(c.calls)) else c;
    match c1.tee
    case None => (c1, false)
    case Some(tee) =>
      var answer := w.auth(c1.calls, tee);
      if answer.Answer? && answer.status == OK && answer.body.Some? then Responded(w, Requested(c1), answer.body.value)
      else (Requested(c1), false)
  }

  /** `repeat_rcar_handshake`, with `left` further attempts. */
  function Repeated(w: World, c: Client, left: nat): (Client, bool)
    decreases left, c
  {
    if left == 0 then (c, false)
    else
      var (c', ok) := Handshaken(w, c);
      if ok then (c', true) else Repeated(w, c', left - 1)
  }

  function TokenGot(w: World, c: Client): (Client, Option<(Token, Key)>) {
    var (c', ok) :=
      if c.token.Some? && w.stillValid(c.calls, c.token.value) then (Called(c), true)
      else Repeated(w, if c.token.Some? then Called(c) else c, RCAR_MAX_ATTEMPT);
    (c', if ok && c'.token.Some? then Some((c'.token.value, c'.key)) else None)
  }

  /** `get_resource` of the RCAR client, with `left` further attempts. */
  function ResourceGot(w: World, c: Client, left: nat): (Client, Option<Secret>)
    decreases left, c
  {
    if left == 0 then (c, None)
    else
      var answer := w.resource(c.calls, None);
      var c1 := Requested(c);
      if answer.Broken? then (c1, None)
      else if answer.status == OK then (c1, if answer.body.Some? then w.decrypt(c1.key, answer.body.value) else None)
      else if answer.status == UNAUTHORIZED && answer.errorInfo then
        var (c2, ok) := Handshaken(w, c1);
        if ok then ResourceGot(w, c2, left - 1) else (c2, None)
      else (c1, None)
  }

  class RcarClient {
    const world: World
    const key: Key
    var tee: Option<nat>
    var token: Option<Token>
    var calls: nat
    var requests: nat

    ghost function View(): Client reads this { Client(tee, key, token, calls, requests) }

    constructor (world: World, key: Key, token: Option<Token>)
      ensures this.world == world && View() == Client(None, key, token, 0, 0)
    {
      this.world, this.key, this.token := world, key, token;
      tee, calls, requests := None, 0, 0;
    }

    method Attest(evidence: string) returns (answer: Option<Http<Token>>)
      modifies this`calls, this`requests
      ensures (View(), answer) == Attested(world, old(View()), evidence, ATTEST_MAX_ATTEMPT)
    {
      var attempts := 0;
      while true
        invariant 0 <= attempts < ATTEST_MAX_ATTEMPT
        invariant Attested(world, View(), evidence, ATTEST_MAX_ATTEMPT - attempts) ==
          Attested(world, old(View()), evidence, ATTEST_MAX_ATTEMPT)
        decreases ATTEST_MAX_ATTEMPT - attempts
      {
        attempts := attempts + 1;
        var result := world.attest(calls, key, evidence);
        calls, requests := calls + 1, requests + 1;
        if result.Answer? { return Some(result); }
        if !result.retriable || attempts >= ATTEST_MAX_ATTEMPT { return None; }
      }
    }

    method Handshake() returns (ok: bool)
      modifies this
      ensures (View(), ok) == Handshaken(world, old(View()))
    {
      if tee.None? {
        tee := world.teeType(calls);
        calls := calls + 1;
        if tee.None? { return false; }
      }
      var resp := world.auth(calls, tee.value);
      calls, requests := calls + 1, requests + 1;
      if resp.Broken? || resp.status != OK || resp.body.None? { return false; }
      ok := Respond(resp.body.value);
    }

    /** The second half of the handshake: evidence for the challenge, attestation, the new token. */
    method Respond(challenge: Challenge) returns (ok: bool)
      modifies this`calls, this`requests, this`token
      ensures (View(), ok) == Responded(world, old(View()), challenge)
    {
      if !challenge.selected { return false; }
      if !world.exports(key) { return false; }
      var evidence := world.evidence(calls, key, challenge.nonce);
      calls := calls + 1;
      if evidence.None? { return false; }
      var answer := Attest(evidence.value);
      if answer.None? || answer.value.Broken? || answer.value.status != OK || answer.value.body.None? { return false; }
      if !world.wellFormed(answer.value.body.value) { return false; }
      token := answer.value.body;
      ok := true;
    }

    method RepeatHandshake() returns (ok: bool)
      modifies this
      ensures (View(), ok) == Repeated(world, old(View()), RCAR_MAX_ATTEMPT)
    {
      var retryCount := 1;
      while true
        invariant 1 <= retryCount <= RCAR_MAX_ATTEMPT
        invariant Repeated(world, View(), RCAR_MAX_ATTEMPT + 1 - retryCount) ==
          Repeated(world, old(View()), RCAR_MAX_ATTEMPT)
        decreases RCAR_MAX_ATTEMPT - retryCount
      {
        ok := Handshake();
        if ok { return; }
        if retryCount >= RCAR_MAX_ATTEMPT { return false; }
        retryCount := retryCount + 1;
      }
    }

    method GetToken() returns (r: Option<(Token, Key)>)
      modifies this
      ensures (View(), r) == TokenGot(world, old(View()))
    {
      var ok := true;
      if token.Some? {
        var valid := world.stillValid(calls, token.value);
        calls := calls + 1;
        if !valid { ok := RepeatHandshake(); }
      } else {
        ok := RepeatHandshake();
      }
      r := if ok && token.Some? then Some((token.value, key)) else None;
    }

    method GetResource() returns (r: Option<Secret>)
      modifies this
      ensures (View(), r) == ResourceGot(world, old(View()), KBS_GET_RESOURCE_MAX_ATTEMPT)
    {
      for attempt := 0 to KBS_GET_RESOURCE_MAX_ATTEMPT
        invariant ResourceGot(world, View(), KBS_GET_RESOURCE_MAX_ATTEMPT - attempt) ==
          ResourceGot(world, old(View()), KBS_GET_RESOURCE_MAX_ATTEMPT)
      {
        var res := world.resource(calls, None);
        calls, requests := calls + 1, requests + 1;
        if res.Broken? { return None; }
        if res.status == OK {
          return if res.body.Some? then world.decrypt(key, res.body.value) else None;
        }
        if res.status != UNAUTHORIZED || !res.errorInfo { return None; }
        var ok := Handshake();
        if !ok { return None; }
      }
      r := None;
    }
  }

  // ---------------------------------------------------------------- token and key stay paired

  predicate IsIssue(w: World, call: nat, evidence: string, key: Key, token: Token) {
    w.attest(call, key, evidence).Answer? && w.attest(call, key, evidence).status == OK
      && w.attest(call, key, evidence).body == Some(token)
  }

  /**
   The server issued the token in answer to an attestation with this key, in a call from `from` on and before `to`.
   */
  ghost predicate Issued(w: World, key: Key, token: Token, from: nat, to: nat) {
    exists call, evidence :: from <= call < to && IsIssue(w, call, evidence, key, token)
  }

  /** The held token was issued for the held key since the start, or is the one held at the start. */
  ghost predicate Paired(w: World, c: Client, start: Client) {
    && c.key == start.key && start.calls <= c.calls
    && (c.token.Some? ==> c.token == start.token || Issued(w, c.key, c.token.value, start.calls, c.calls))
  }

  /** What an attestation loop leaves alone, what it returns, and what it costs. */
  lemma {:induction false} AttestedMeans(w: World, c: Client, evidence: string, left: nat)
    ensures var (c', answer) := Attested(w, c, evidence, left);
      && c'.tee == c.tee && c'.key == c.key && c'.token == c.token && c.requests <= c'.requests <= c.requests + left
      && c.calls <= c'.calls
      && (answer.Some? ==>
            exists call :: c.calls <= call < c'.calls && w.attest(call, c.key, evidence) == answer.value)
    decreases left
  {
    if left > 0 && w.attest(c.calls, c.key, evidence).Broken? {
      AttestedMeans(w, Requested(c), evidence, left - 1);
    }
  }

  lemma {:induction false} RespondedMeans(w: World, c: Client, challenge: Challenge)
    ensures var (c', ok) := Responded(w, c, challenge);
      && c'.key == c.key && c.calls <= c'.calls && c.requests <= c'.requests <= c.requests + ATTEST_MAX_ATTEMPT
      && (!ok ==> c'.token == c.token) && (ok ==> c'.token.Some? && w.wellFormed(c'.token.value))
      && (ok ==> Issued(w, c.key, c'.token.value, c.calls, c'.calls))
  {
    if challenge.selected && w.exports(c.key) {
      var e := w.evidence(c.calls, c.key, challenge.nonce);
      if e.Some? {
        AttestedMeans(w, Called(c), e.value, ATTEST_MAX_ATTEMPT);
        var (c', answer) := Attested(w, Called(c), e.value, ATTEST_MAX_ATTEMPT);
        if answer.Some? {
          var call :| c.calls <= call < c'.calls && w.attest(call, c.key, e.value) == answer.value;
          assert answer.value.Answer? && answer.value.status == OK && answer.value.body.Some? ==>
            IsIssue(w, call, e.value, c.key, answer.value.body.value);
        }
      }
    }
  }

  /** One handshake: at most four requests; failure keeps the pair; success installs a token issued for the key. */
  lemma {:induction false} HandshakeMeans(w: World, c: Client)
    ensures var (c', ok) := Handshaken(w, c);
      && c'.key == c.key && c.calls <= c'.calls && c.requests <= c'.requests <= c.requests + 4
      && (!ok ==> c'.token == c.token) && (ok ==> c'.token.Some? && w.wellFormed(c'.token.value))
      && (ok ==> Issued(w, c.key, c'.token.value, c.calls, c'.calls))
  {
    var c1 := if c.tee.None? then Called(c).(tee := w.teeType(c.calls)) else c;
    if c1.tee.Some? {
      var answer := w.auth(c1.calls, c1.tee.value);
      if answer.Answer? && answer.body.Some? {
        RespondedMeans(w, Requested(c1), answer.body.value);
      }
    }
  }

  lemma {:induction false} RepeatMeans(w: World, c: Client, left: nat)
    ensures var (c', ok) := Repeated(w, c, left);
      && c'.key == c.key && c.calls <= c'.calls && c.requests <= c'.requests <= c.requests + 4 * left
      && (!ok ==> c'.token == c.token) && (ok ==> c'.token.Some? && Issued(w, c.key, c'.token.value, c.calls, c'.calls))
    decreases left
  {
    if left > 0 {
      HandshakeMeans(w, c);
      var (c', ok) := Handshaken(w, c);
      if !ok {
        RepeatMeans(w, c', left - 1);
      }
    }
  }

  /** `get_token`: at most 20 requests; the token returned is held, with its key, and is unexpired or newly issued. */
  lemma {:induction false} GetTokenMeans(w: World, c: Client)
    ensures var (c', r) := TokenGot(w, c);
      && c'.key == c.key && c.calls <= c'.calls && c'.requests <= c.requests + 20
      && (r.Some? ==> c'.token == Some(r.value.0) && c'.key == r.value.1)
      && (r.Some? ==>
            (c'.token == c.token && w.stillValid(c.calls, r.value.0)) || Issued(w, c.key, r.value.0, c.calls, c'.calls))
      && (r.None? ==> c'.token == c.token)
      && (c'.token == c.token || (c'.token.Some? && Issued(w, c.key, c'.token.value, c.calls, c'.calls)))
  {
    RepeatMeans(w, c, RCAR_MAX_ATTEMPT);
    RepeatMeans(w, Called(c), RCAR_MAX_ATTEMPT);
  }

  /** The secret is what the server sent for this token, decrypted with this key. */
  predicate Opens(w: World, call: nat, token: Option<Token>, key: Key, secret: Secret) {
    var answer := w.resource(call, token);
    answer.Answer? && answer.status == OK && answer.body.Some? && w.decrypt(key, answer.body.value) == Some(secret)
  }

  lemma {:induction false} ResourceMeans(w: World, c: Client, left: nat)
    ensures var (c', r) := ResourceGot(w, c, left);
      && c'.key == c.key && c.calls <= c'.calls && c'.requests <= c.requests + 5 * left
      && (c'.token == c.token || (c'.token.Some? && Issued(w, c.key, c'.token.value, c.calls, c'.calls)))
      && (r.Some? ==> exists call :: c.calls <= call < c'.calls && Opens(w, call, None, c'.key, r.value))
    decreases left
  {
    if left > 0 {
      var answer := w.resource(c.calls, None);
      var (_, r) := ResourceGot(w, c, left);
      assert answer.Answer? && answer.status == OK && r.Some? ==> Opens(w, c.calls, None, c.key, r.value);
      if answer.Answer? && answer.status == UNAUTHORIZED && answer.errorInfo {
        HandshakeMeans(w, Requested(c));
        var (c2, ok) := Handshaken(w, Requested(c));
        if ok {
          ResourceMeans(w, c2, left - 1);
        }
      }
    }
  }

  // ---------------------------------------------------------------- whole runs of the RCAR client

  datatype Call = GetToken | GetResource

  function After(w: World, c: Client, call: Call): Client {
    match call
    case GetToken => TokenGot(w, c).0
    case GetResource => ResourceGot(w, c, KBS_GET_RESOURCE_MAX_ATTEMPT).0
  }

  function AfterAll(w: World, c: Client, calls: seq<Call>): Client {
    if calls == [] then c else After(w, AfterAll(w, c, calls[..|calls| - 1]), calls[|calls| - 1])
  }

  /** In every run the held token was issued for the held key, which never changes. */
  lemma {:induction false} AlwaysPaired(w: World, c: Client, calls: seq<Call>)
    ensures Paired(w, AfterAll(w, c, calls), c)
  {
    if calls != [] {
      var before := AfterAll(w, c, calls[..|calls| - 1]);
      AlwaysPaired(w, c, calls[..|calls| - 1]);
      GetTokenMeans(w, before);
      ResourceMeans(w, before, KBS_GET_RESOURCE_MAX_ATTEMPT);
    }
  }

  /** At most 15 requests for a resource and 20 for a token, against every server. */
  lemma {:induction false} RequestsAreBounded(w: World, c: Client)
    ensures After(w, c, GetResource).requests <= c.requests + 15
    ensures After(w, c, GetToken).requests <= c.requests + 20
  {
    ResourceMeans(w, c, KBS_GET_RESOURCE_MAX_ATTEMPT);
    GetTokenMeans(w, c);
  }

  predicate Never(n: nat) { false }
  predicate EverySixth(n: nat) { n % 6 == 5 }

  /** A server that rejects every resource request, and on which only `lucky` attestation calls get through. */
  function Stubborn(lucky: nat -> bool): World {
    World(
      (n) => Some(0),
      (n, tee) => Answer(OK, Some(Challenge("", true)), true),
      (n, key, nonce) => Some(""),
      (n: nat, key, evidence) => if lucky(n) then Answer(OK, Some(""), true) else Broken(true),
      (n, token) => Answer(UNAUTHORIZED, None, true),
      (n) => None,
      (token) => true,
      (n, token) => false,
      (key) => true,
      (key, secret) => None)
  }

  lemma {:induction false} AllAttestsFail(w: World, c: Client, evidence: string, left: nat)
    requires forall n :: w.attest(n, c.key, evidence) == Broken(true)
    ensures Attested(w, c, evidence, left) == (c.(calls := c.calls + left, requests := c.requests + left), None)
    decreases left
  {
    if left > 0 {
      assert w.attest(c.calls, c.key, evidence) == Broken(true);
      AllAttestsFail(w, Requested(c), evidence, left - 1);
    }
  }

  lemma {:induction false} FailedHandshakeCosts(c: Client)
    requires c.tee.Some?
    ensures var (c', ok) := Handshaken(Stubborn(Never), c); !ok && c'.tee == c.tee && c'.requests == c.requests + 4
  {
    var w := Stubborn(Never);
    AllAttestsFail(w, Called(Requested(c)), "", ATTEST_MAX_ATTEMPT);
    assert w.evidence(Requested(c).calls, c.key, "") == Some("");
  }

  lemma {:induction false} FailedRepeatCosts(c: Client, left: nat)
    requires c.tee.Some?
    ensures Repeated(Stubborn(Never), c, left).0.requests == c.requests + 4 * left
    decreases left
  {
    if left > 0 {
      FailedHandshakeCosts(c);
      FailedRepeatCosts(Handshaken(Stubborn(Never), c).0, left - 1);
    }
  }

  /** With the second and third retry of every attestation: five requests per attempt, all attempts used up. */
  lemma {:induction false} SlowHandshakeCosts(c: Client)
    requires c.tee.Some? && c.calls % 6 == 1
    ensures var (c', ok) := Handshaken(Stubborn(EverySixth), c);
      ok && c'.tee == c.tee && c'.requests == c.requests + 4 && c'.calls == c.calls + 5
  {
    var w := Stubborn(EverySixth);
    var c1 := Called(Requested(c));
    var c2 := Requested(c1);
    var c3 := Requested(c2);
    assert w.evidence(Requested(c).calls, c.key, "") == Some("");
    assert w.attest(c1.calls, c.key, "") == w.attest(c2.calls, c.key, "") == Broken(true)
      && w.attest(c3.calls, c.key, "").Answer?;
    assert Attested(w, c3, "", 1) == (Requested(c3), Some(w.attest(c3.calls, c.key, "")));
    assert Attested(w, c2, "", 2) == Attested(w, c3, "", 1);
    assert Attested(w, c1, "", 3) == Attested(w, c2, "", 2);
  }

  predicate SlowFor(w: World, c: Client) {
    c.tee.Some? && c.calls % 6 == 1 ==>
      var (c', ok) := Handshaken(w, c);
      ok && c'.tee == c.tee && c'.requests == c.requests + 4 && c'.calls == c.calls + 5
  }

  lemma {:induction false} SlowResourceCosts(w: World, c: Client, left: nat)
    requires c.tee.Some? && c.calls % 6 == 0
    requires forall n :: w.resource(n, None) == Answer(UNAUTHORIZED, None, true)
    requires forall d :: SlowFor(w, d)
    ensures ResourceGot(w, c, left).0.requests == c.requests + 5 * left
    decreases left
  {
    if left > 0 {
      assert SlowFor(w, Requested(c));
      SlowResourceCosts(w, Handshaken(w, Requested(c)).0, left - 1);
    }
  }

  /** Both limits are reached. */
  lemma {:induction false} BoundsAreTight(key: Key)
    ensures After(Stubborn(EverySixth), Client(Some(0), key, None, 0, 0), GetResource).requests == 15
    ensures After(Stubborn(Never), Client(Some(0), key, None, 0, 0), GetToken).requests == 20
  {
    forall d ensures SlowFor(Stubborn(EverySixth), d) {
      if d.tee.Some? && d.calls % 6 == 1 {
        SlowHandshakeCosts(d);
      }
    }
    SlowResourceCosts(Stubborn(EverySixth), Client(Some(0), key, None, 0, 0), KBS_GET_RESOURCE_MAX_ATTEMPT);
    FailedRepeatCosts(Client(Some(0), key, None, 0, 0), RCAR_MAX_ATTEMPT);
  }

  // ---------------------------------------------------------------- the token client

  /** `update_token` */
  function Updated(w: World, c: Client): (Client, bool) {
    match w.provide(c.calls)
    case None => (Called(c), false)
    case Some(pair) => (Called(c).(token := Some(pair.0), key := pair.1), true)
  }

  /** `get_resource` of the token client, with `left` further attempts. */
  function ResourceByToken(w: World, c: Client, left: nat): (Client, Option<Secret>)
    decreases left, c
  {
    if left == 0 then (c, None)
    else
      var (c1, ok) := if c.token.None? then Updated(w, c) else (c, true);
      if !ok then (c1, None)
      else
        var answer := w.resource(c1.calls, c1.token);
        var c2 := Requested(c1);
        if answer.Broken? then (c2, None)
        else if answer.status == OK then (c2, if answer.body.Some? then w.decrypt(c2.key, answer.body.value) else None)
        else if answer.status == UNAUTHORIZED && answer.errorInfo then
          var (c3, updated) := Updated(w, c2);
          if updated then ResourceByToken(w, c3, left - 1) else (c3, None)
        else (c2, None)
  }

  class TokenClient {
    const world: World
    var key: Key
    var token: Option<Token>
    var calls: nat
    var requests: nat

    ghost function View(): Client reads this { Client(None, key, token, calls, requests) }

    constructor (world: World, key: Key, token: Option<Token>)
      ensures this.world == world && View() == Client(None, key, token, 0, 0)
    {
      this.world, this.key, this.token := world, key, token;
      calls, requests := 0, 0;
    }

    method UpdateToken() returns (ok: bool)
      modifies this
      ensures (View(), ok) == Updated(world, old(View()))
    {
      var pair := world.provide(calls);
      calls := calls + 1;
      if pair.None? { return false; }
      token, key := Some(pair.value.0), pair.value.1;
      ok := true;
    }

    method GetResource() returns (r: Option<Secret>)
      modifies this
      ensures (View(), r) == ResourceByToken(world, old(View()), KBS_GET_RESOURCE_MAX_ATTEMPT)
    {
      for attempt := 0 to KBS_GET_RESOURCE_MAX_ATTEMPT
        invariant ResourceByToken(world, View(), KBS_GET_RESOURCE_MAX_ATTEMPT - attempt) ==
          ResourceByToken(world, old(View()), KBS_GET_RESOURCE_MAX_ATTEMPT)
      {
        if token.None? {
          var got := UpdateToken();
          if !got { return None; }
        }
        var res := world.resource(calls, token);
        calls, requests := calls + 1, requests + 1;
        if res.Broken? { return None; }
        if res.status == OK {
          return if res.body.Some? then world.decrypt(key, res.body.value) else None;
        }
        if res.status != UNAUTHORIZED || !res.errorInfo { return None; }
        var updated := UpdateToken();
        if !updated { return None; }
      }
      r := None;
    }
  }

  /** The held pair is the one the client was built with, or one that the provider gave out as a pair. */
  ghost predicate PairedByProvider(w: World, c: Client, start: Client) {
    start.calls <= c.calls &&
    (|| (c.token == start.token && c.key == start.key)
     || (c.token.Some? &&
         exists call :: start.calls <= call < c.calls && w.provide(call) == Some((c.token.value, c.key))))
  }

  lemma {:induction false} UpdateMeans(w: World, c: Client, start: Client)
    requires PairedByProvider(w, c, start)
    ensures var (c', ok) := Updated(w, c);
      PairedByProvider(w, c', start) && c'.requests == c.requests && c'.calls == c.calls + 1
        && (!ok ==> c'.token == c.token && c'.key == c.key) && (ok ==> c'.token.Some?)
  {}

  /** A resource comes from a request with the held token and was decrypted with the key of that token's pair. */
  lemma {:induction false} ResourceByTokenMeans(w: World, c: Client, left: nat, start: Client)
    requires PairedByProvider(w, c, start)
    ensures var (c', r) := ResourceByToken(w, c, left);
      && PairedByProvider(w, c', start) && c'.requests <= c.requests + left
      && c.calls <= c'.calls
      && (r.Some? ==> c'.token.Some?)
      && (r.Some? ==> exists call :: c.calls <= call < c'.calls && Opens(w, call, c'.token, c'.key, r.value))
    decreases left
  {
    if left > 0 {
      UpdateMeans(w, c, start);
      var (c1, ok) := if c.token.None? then Updated(w, c) else (c, true);
      if ok {
        var answer := w.resource(c1.calls, c1.token);
        var (_, r) := ResourceByToken(w, c, left);
        assert answer.Answer? && answer.status == OK && r.Some? ==> Opens(w, c1.calls, c1.token, c1.key, r.value);
        UpdateMeans(w, Requested(c1), start);
        var (c3, updated) := Updated(w, Requested(c1));
        if updated {
          ResourceByTokenMeans(w, c3, left - 1, start);
        }
      }
    }
  }

  function AfterResources(w: World, c: Client, n: nat): Client {
    if n == 0 then c else ResourceByToken(w, AfterResources(w, c, n - 1), KBS_GET_RESOURCE_MAX_ATTEMPT).0
  }

  /** In every run of the token client token and key are replaced together. */
  lemma {:induction false} AlwaysPairedByProvider(w: World, c: Client, n: nat)
    ensures PairedByProvider(w, AfterResources(w, c, n), c)
  {
    if n > 0 {
      AlwaysPairedByProvider(w, c, n - 1);
      ResourceByTokenMeans(w, AfterResources(w, c, n - 1), KBS_GET_RESOURCE_MAX_ATTEMPT, c);
    }
  }
}
