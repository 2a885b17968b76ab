/**
 When the KBS clients succeed (attestation-agent/kbs_protocol/src/client): exactly which answers of the server and the
 providers lead to a token or a resource, and which one is returned.
 */
module KbsAnswers {
  import opened Common
  import opened KbsClient

  // ---------------------------------------------------------------- attestation and handshake

  /** Call `at` is the first attestation call from `from` on that is answered; those before it may be retried. */
  predicate AnsweredAt(w: World, key: Key, evidence: string, from: nat, at: nat) {
    && from <= at && w.attest(at, key, evidence).Answer?
    && forall call :: from <= call < at ==> w.attest(call, key, evidence) == Broken(true)
  }

  /** The loop ends with the first answer, if only retriable failures came before it. */
  lemma {:induction false} AttestedIff(w: World, c: Client, evidence: string, left: nat)
    ensures Attested(w, c, evidence, left).1.Some? <==>
      exists at :: c.calls <= at < c.calls + left && AnsweredAt(w, c.key, evidence, c.calls, at)
    ensures forall at :: c.calls <= at < c.calls + left && AnsweredAt(w, c.key, evidence, c.calls, at) ==>
      Attested(w, c, evidence, left).1 == Some(w.attest(at, c.key, evidence))
    decreases left
  {
    if left > 0 {
      var first := w.attest(c.calls, c.key, evidence);
      if first.Answer? {
        assert AnsweredAt(w, c.key, evidence, c.calls, c.calls);
      } else if first.retriable {
        var d := Requested(c);
        AttestedIff(w, d, evidence, left - 1);
        forall at | d.calls <= at
          ensures AnsweredAt(w, c.key, evidence, c.calls, at) <==> AnsweredAt(w, d.key, evidence, d.calls, at)
        {}
      }
    }
  }

  /** The answer at `at` is a token that the client accepts. */
  predicate IssuesAt(w: World, key: Key, evidence: string, at: nat) {
    var answer := w.attest(at, key, evidence);
    answer.Answer? && answer.status == 200 && answer.body.Some? && w.wellFormed(answer.body.value)
  }

  /** What a challenge must meet with: a known algorithm, an exportable key, evidence, and a token at call `at`. */
  predicate ChallengeMet(w: World, c: Client, challenge: Challenge, at: nat) {
    && challenge.selected && w.exports(c.key) && w.evidence(c.calls, c.key, challenge.nonce).Some?
    && var evidence := w.evidence(c.calls, c.key, challenge.nonce).value;
       c.calls + 1 <= at < c.calls + 4 && AnsweredAt(w, c.key, evidence, c.calls + 1, at)
         && IssuesAt(w, c.key, evidence, at)
  }

  lemma {:induction false} RespondedIff(w: World, c: Client, challenge: Challenge)
    ensures Responded(w, c, challenge).1 <==> exists at :: ChallengeMet(w, c, challenge, at)
    ensures forall at :: ChallengeMet(w, c, challenge, at) ==>
      Responded(w, c, challenge).0.token == w.attest(at, c.key, w.evidence(c.calls, c.key, challenge.nonce).value).body
  {
    if challenge.selected && w.exports(c.key) && w.evidence(c.calls, c.key, challenge.nonce).Some? {
      var evidence := w.evidence(c.calls, c.key, challenge.nonce).value;
      AttestedIff(w, Called(c), evidence, ATTEST_MAX_ATTEMPT);
      var (c', answer) := Attested(w, Called(c), evidence, ATTEST_MAX_ATTEMPT);
      if Responded(w, c, challenge).1 {
        var at :| c.calls + 1 <= at < c.calls + 4 && AnsweredAt(w, c.key, evidence, c.calls + 1, at);
        assert ChallengeMet(w, c, challenge, at);
      }
    }
  }

  /** The client after it knows its TEE type, if it can be known. */
  function WithTee(w: World, c: Client): Client { if c.tee.Some? then c else Called(c).(tee := w.teeType(c.calls)) }

  /** The challenge that the server answers an authentication request with, if it does. */
  function ChallengeFor(w: World, c: Client): Option<Challenge> {
    if c.tee.None? then None
    else
      var answer := w.auth(c.calls, c.tee.value);
      if answer.Answer? && answer.status == 200 then answer.body else None
  }

  /** A handshake succeeds exactly when there is a challenge and it is met, and then holds the token issued there. */
  lemma {:induction false} HandshakeSucceedsIff(w: World, c: Client)
    ensures var c1 := WithTee(w, c);
      Handshaken(w, c).1 <==>
      ChallengeFor(w, c1).Some? && exists at :: ChallengeMet(w, Requested(c1), ChallengeFor(w, c1).value, at)
    ensures var c1 := WithTee(w, c);
      ChallengeFor(w, c1).Some? ==>
      var c2, challenge := Requested(c1), ChallengeFor(w, c1).value;
      forall at :: ChallengeMet(w, c2, challenge, at) ==>
        Handshaken(w, c).0.token == w.attest(at, c.key, w.evidence(c2.calls, c.key, challenge.nonce).value).body
  {
    var c1 := WithTee(w, c);
    if ChallengeFor(w, c1).Some? {
      RespondedIff(w, Requested(c1), ChallengeFor(w, c1).value);
    }
  }

  // ---------------------------------------------------------------- tokens

  /** The client after `k` failed handshakes, if they all fail. */
  function AfterFailures(w: World, c: Client, k: nat): Option<Client>
    decreases k, c
  {
    if k == 0 then Some(c)
    else if Handshaken(w, c).1 then None
    else AfterFailures(w, Handshaken(w, c).0, k - 1)
  }

  predicate SucceedsAfter(w: World, c: Client, k: nat) {
    AfterFailures(w, c, k).Some? && Handshaken(w, AfterFailures(w, c, k).value).1
  }

  lemma {:induction false} RepeatSucceedsIff(w: World, c: Client, left: nat)
    ensures Repeated(w, c, left).1 <==> exists k :: 0 <= k < left && SucceedsAfter(w, c, k)
    decreases left
  {
    if left > 0 {
      assert SucceedsAfter(w, c, 0) <==> Handshaken(w, c).1;
      if !Handshaken(w, c).1 {
        var d := Handshaken(w, c).0;
        RepeatSucceedsIff(w, d, left - 1);
        forall k | 0 < k ensures SucceedsAfter(w, c, k) <==> SucceedsAfter(w, d, k - 1) {}
        if Repeated(w, d, left - 1).1 {
          var k :| 0 <= k < left - 1 && SucceedsAfter(w, d, k);
          assert SucceedsAfter(w, c, k + 1);
        }
      }
    }
  }

  /**
   A held token that is still valid is returned without any request; otherwise there is a token exactly when one of
   five handshakes succeeds.
   */
  lemma {:induction false} TokenReturnedIff(w: World, c: Client)
    ensures c.token.Some? && w.stillValid(c.calls, c.token.value) ==>
      TokenGot(w, c).1 == Some((c.token.value, c.key)) && TokenGot(w, c).0.requests == c.requests
    ensures c.token.Some? && !w.stillValid(c.calls, c.token.value) ==>
      (TokenGot(w, c).1.Some? <==> exists k :: 0 <= k < 5 && SucceedsAfter(w, Called(c), k))
    ensures c.token.None? ==> (TokenGot(w, c).1.Some? <==> exists k :: 0 <= k < 5 && SucceedsAfter(w, c, k))
  {
    RepeatSucceedsIff(w, c, RCAR_MAX_ATTEMPT);
    RepeatSucceedsIff(w, Called(c), RCAR_MAX_ATTEMPT);
    RepeatMeans(w, c, RCAR_MAX_ATTEMPT);
    RepeatMeans(w, Called(c), RCAR_MAX_ATTEMPT);
  }

  // ---------------------------------------------------------------- resources

  /** The server answers the client's next resource request with something that its key opens to the secret. */
  predicate Delivers(w: World, c: Client, token: Option<Token>, secret: Secret) {
    var answer := w.resource(c.calls, token);
    answer.Answer? && answer.status == 200 && answer.body.Some? && w.decrypt(c.key, answer.body.value) == Some(secret)
  }

  predicate Rejects(w: World, c: Client, token: Option<Token>) {
    var answer := w.resource(c.calls, token);
    answer.Answer? && answer.status == 401 && answer.errorInfo
  }

  /** The RCAR client after `k` rejections, each followed by a successful handshake. */
  function AfterRejections(w: World, c: Client, k: nat): Option<Client>
    decreases k, c
  {
    if k == 0 then Some(c)
    else if !Rejects(w, c, None) || !Handshaken(w, Requested(c)).1 then None
    else AfterRejections(w, Handshaken(w, Requested(c)).0, k - 1)
  }

  predicate DeliversAfter(w: World, c: Client, k: nat, secret: Secret) {
    AfterRejections(w, c, k).Some? && Delivers(w, AfterRejections(w, c, k).value, None, secret)
  }

  /** A secret is returned exactly when the server delivers it after fewer than `left` rejections and handshakes. */
  lemma {:induction false} ResourceReturnedIff(w: World, c: Client, left: nat, secret: Secret)
    ensures ResourceGot(w, c, left).1 == Some(secret) <==> exists k :: 0 <= k < left && DeliversAfter(w, c, k, secret)
    decreases left
  {
    if left > 0 {
      assert DeliversAfter(w, c, 0, secret) <==> Delivers(w, c, None, secret);
      if Rejects(w, c, None) && Handshaken(w, Requested(c)).1 {
        var d := Handshaken(w, Requested(c)).0;
        ResourceReturnedIff(w, d, left - 1, secret);
        forall k | 0 < k ensures DeliversAfter(w, c, k, secret) <==> DeliversAfter(w, d, k - 1, secret) {}
        if ResourceGot(w, d, left - 1).1 == Some(secret) {
          var k :| 0 <= k < left - 1 && DeliversAfter(w, d, k, secret);
          assert DeliversAfter(w, c, k + 1, secret);
        }
      }
    }
  }

  /** The token client with a token, fetched now if it has none. */
  function WithToken(w: World, c: Client): Option<Client> {
    if c.token.Some? then Some(c) else if Updated(w, c).1 then Some(Updated(w, c).0) else None
  }

  /** The token client, ready to ask, after `k` rejections, each followed by a new pair. */
  function AfterUpdates(w: World, c: Client, k: nat): Option<Client>
    decreases k, c
  {
    match WithToken(w, c)
    case None => None
    case Some(d) =>
      if k == 0 then Some(d)
      else if !Rejects(w, d, d.token) || !Updated(w, Requested(d)).1 then None
      else AfterUpdates(w, Updated(w, Requested(d)).0, k - 1)
  }

  predicate DeliversAfterUpdates(w: World, c: Client, k: nat, secret: Secret) {
    var d := AfterUpdates(w, c, k);
    d.Some? && Delivers(w, d.value, d.value.token, secret)
  }

  lemma {:induction false} ResourceByTokenReturnedIff(w: World, c: Client, left: nat, secret: Secret)
    ensures ResourceByToken(w, c, left).1 == Some(secret) <==>
      exists k :: 0 <= k < left && DeliversAfterUpdates(w, c, k, secret)
    decreases left
  {
    if left > 0 && WithToken(w, c).Some? {
      var d := WithToken(w, c).value;
      assert DeliversAfterUpdates(w, c, 0, secret) <==> Delivers(w, d, d.token, secret);
      if Rejects(w, d, d.token) && Updated(w, Requested(d)).1 {
        var e := Updated(w, Requested(d)).0;
        ResourceByTokenReturnedIff(w, e, left - 1, secret);
        forall k | 0 < k ensures DeliversAfterUpdates(w, c, k, secret) <==> DeliversAfterUpdates(w, e, k - 1, secret) {}
        if ResourceByToken(w, e, left - 1).1 == Some(secret) {
          var k :| 0 <= k < left - 1 && DeliversAfterUpdates(w, e, k, secret);
          assert DeliversAfterUpdates(w, c, k + 1, secret);
        }
      }
    }
  }

  /** Both clients try three times. */
  lemma {:induction false} ResourceAttempts(w: World, c: Client, secret: Secret)
    ensures ResourceGot(w, c, KBS_GET_RESOURCE_MAX_ATTEMPT).1 == Some(secret) <==>
      DeliversAfter(w, c, 0, secret) || DeliversAfter(w, c, 1, secret) || DeliversAfter(w, c, 2, secret)
    ensures ResourceByToken(w, c, KBS_GET_RESOURCE_MAX_ATTEMPT).1 == Some(secret) <==>
      || DeliversAfterUpdates(w, c, 0, secret) || DeliversAfterUpdates(w, c, 1, secret)
      || DeliversAfterUpdates(w, c, 2, secret)
  {
    ResourceReturnedIff(w, c, KBS_GET_RESOURCE_MAX_ATTEMPT, secret);
    ResourceByTokenReturnedIff(w, c, KBS_GET_RESOURCE_MAX_ATTEMPT, secret);
  }
}
