/** Talking to a phone: a request is sent plain, and after a 401 once more plain and
    then with an answer to the fresh challenge.  Whatever the phone replies is a
    script, and every script is allowed. */
module Handshake {
  import opened Basics
  import opened GoStrings
  import opened DigestParams
  import opened Digest

  /** A reply; the transport may fail instead, and closing a body may fail too. */
  datatype Reply = Unreachable | Reply(status: int, challenge: string, closeFails: bool)

  datatype Operation = Operation(verb: string, endpoint: string, body: Option<string>)

  datatype Exchange = Exchange(op: Operation, authorization: Option<string>)

  /** How the client answers the challenge an operation met. */
  type Answerer = (Operation, string, Option<string>) -> Result<string>

  /** The Digest answerer, for a hash, credentials and the request URI of an endpoint. */
  function DigestAnswerer(f: Fold, h: Hash, who: Credentials, uri: string -> string): Answerer {
    (op: Operation, challenge: string, cnonce: Option<string>) =>
      Authorize(f, h, challenge, Request(op.verb, uri(op.endpoint)), who, cnonce)
  }

  datatype Failure = Transport | CloseFailed | BadChallenge(error: Error) | UnexpectedStatus(status: int)

  datatype Outcome<+T> = Outcome(sent: seq<Exchange>, result: T)

  datatype Response = Got(status: int, challenge: string) | Failed(failure: Failure)

  /** The reply to an exchange; the transport fails once the script is used up. */
  function ReplyTo(replies: seq<Reply>, i: nat): Reply {
    if i < |replies| then replies[i] else Unreachable
  }

  function Answered(r: Reply): Response {
    match r
    case Unreachable => Failed(Transport)
    case Reply(status, challenge, _) => Got(status, challenge)
  }

  /** A plain request, or one that fetches a challenge and answers it; the replies
      are those from position n of the script. */
  function RequestRun(answer: Answerer, replies: seq<Reply>, n: nat, op: Operation, withDigest: bool,
                      cnonce: Option<string>): Outcome<Response> {
    var plain := Exchange(op, None);
    var first := ReplyTo(replies, n);
    if !withDigest || first.Unreachable? || first.status != 401 then Outcome([plain], Answered(first))
    else if first.closeFails then Outcome([plain], Failed(CloseFailed))
    else
      match answer(op, first.challenge, cnonce)
      case Err(e) => Outcome([plain], Failed(BadChallenge(e)))
      case Ok(header) => Outcome([plain, Exchange(op, Some(header))], Answered(ReplyTo(replies, n + 1)))
  }

  function AuthenticatedRun(answer: Answerer, replies: seq<Reply>, n: nat, op: Operation,
                            cnonce: Option<string>): Outcome<Response> {
    var first := RequestRun(answer, replies, n, op, false, cnonce);
    if first.result.Failed? || first.result.status != 401 then first
    else if ReplyTo(replies, n).closeFails then Outcome(first.sent, Failed(CloseFailed))
    else
      var second := RequestRun(answer, replies, n + 1, op, true, cnonce);
      Outcome(first.sent + second.sent, second.result)
  }

  datatype State = OK | ApiDisabled | AuthFailed | PhoneUnreachable

  datatype Probed = Probed(state: State, err: Option<Failure>)

  const PROBE := Operation("GET", "device/info", None)

  function Classify(r: Response): Probed {
    match r
    case Failed(failure) => Probed(PhoneUnreachable, Some(failure))
    case Got(status, _) =>
      if status == 401 then Probed(AuthFailed, None)
      else if 200 <= status < 300 then Probed(OK, None)
      else Probed(PhoneUnreachable, Some(UnexpectedStatus(status)))
  }

  function ProbeRun(answer: Answerer, replies: seq<Reply>, n: nat, cnonce: Option<string>): Outcome<Probed> {
    var first := RequestRun(answer, replies, n, PROBE, false, cnonce);
    match first.result
    case Failed(failure) => Outcome(first.sent, Probed(PhoneUnreachable, Some(failure)))
    case Got(status, challenge) =>
      if status == 404 then Outcome(first.sent, Probed(ApiDisabled, None))
      else if status == 401 then
        if challenge == "" then Outcome(first.sent, Probed(AuthFailed, None))
        else
          var second := RequestRun(answer, replies, n + 1, PROBE, true, cnonce);
          Outcome(first.sent + second.sent, Classify(second.result))
      else if status in {200, 201, 202, 204} then Outcome(first.sent, Probed(OK, None))
      else Outcome(first.sent, Probed(PhoneUnreachable, Some(UnexpectedStatus(status))))
  }

  // -------------------------------------------------------------- trace safety

  predicate Challenged(r: Reply) {
    r.Reply? && r.status == 401
  }

  /** The reply to the i-th exchange of an operation that began at position n. */
  function Met(replies: seq<Reply>, n: nat, i: nat): Reply {
    ReplyTo(replies, n + i)
  }

  /** The credentials of an exchange answer the challenge of the reply before it. */
  ghost predicate AnswersPrevious(answer: Answerer, replies: seq<Reply>, n: nat, op: Operation, cnonce: Option<string>,
                                  i: nat, header: string) {
    i > 0 && Challenged(Met(replies, n, i - 1)) && answer(op, Met(replies, n, i - 1).challenge, cnonce) == Ok(header)
  }

  /** A trace of one operation: at most three exchanges, all of that operation, each
      but the last met with a 401; credentials at most in the last one, and then
      answering the challenge of the reply just before it. */
  ghost predicate SafeTrace(answer: Answerer, replies: seq<Reply>, n: nat, op: Operation, cnonce: Option<string>,
                            sent: seq<Exchange>) {
    && 1 <= |sent| <= 3
    && (forall i :: 0 <= i < |sent| ==> sent[i].op == op)
    && (forall i :: 0 <= i < |sent| - 1 ==> Challenged(Met(replies, n, i)))
    && (forall i :: 0 <= i < |sent| && sent[i].authorization.Some? ==>
          i == |sent| - 1 && AnswersPrevious(answer, replies, n, op, cnonce, i, sent[i].authorization.value))
  }

  lemma RequestShape(answer: Answerer, replies: seq<Reply>, n: nat, op: Operation, withDigest: bool,
                     cnonce: Option<string>)
    ensures
      var o := RequestRun(answer, replies, n, op, withDigest, cnonce);
      || o.sent == [Exchange(op, None)]
      || (&& withDigest && Challenged(ReplyTo(replies, n))
          && answer(op, ReplyTo(replies, n).challenge, cnonce).Ok?
          && o.sent == [Exchange(op, None),
                        Exchange(op, Some(answer(op, ReplyTo(replies, n).challenge, cnonce).value))])
  {
  }

  lemma AuthenticatedTraceIsSafe(answer: Answerer, replies: seq<Reply>, n: nat, op: Operation, cnonce: Option<string>)
    ensures SafeTrace(answer, replies, n, op, cnonce, AuthenticatedRun(answer, replies, n, op, cnonce).sent)
  {
    RequestShape(answer, replies, n, op, false, cnonce);
    RequestShape(answer, replies, n + 1, op, true, cnonce);
  }

  /** What comes back is the reply to the last exchange, unless something failed
      after it; and a 401 comes back only once credentials have been sent. */
  lemma AuthenticatedResult(answer: Answerer, replies: seq<Reply>, n: nat, op: Operation, cnonce: Option<string>)
    ensures
      var o := AuthenticatedRun(answer, replies, n, op, cnonce);
      && o.sent != []
      && (o.result.Got? ==> o.result == Answered(Met(replies, n, |o.sent| - 1)))
      && (o.result.Got? && o.result.status == 401 ==> o.sent[|o.sent| - 1].authorization.Some?)
      && (o.result.Failed? ==>
            var last := Met(replies, n, |o.sent| - 1);
            last.Unreachable? || (Challenged(last) && (last.closeFails || answer(op, last.challenge, cnonce).Err?)))
  {
    RequestShape(answer, replies, n, op, false, cnonce);
    RequestShape(answer, replies, n + 1, op, true, cnonce);
  }

  /** One operation by the replies it meets, one case for each way it can go. */
  lemma AuthenticatedExact(answer: Answerer, replies: seq<Reply>, n: nat, op: Operation, cnonce: Option<string>)
    ensures
      var o := AuthenticatedRun(answer, replies, n, op, cnonce);
      var plain := Exchange(op, None);
      var first, second, third := ReplyTo(replies, n), ReplyTo(replies, n + 1), ReplyTo(replies, n + 2);
      if first.Unreachable? then o == Outcome([plain], Failed(Transport))
      else if first.status != 401 then o == Outcome([plain], Got(first.status, first.challenge))
      else if first.closeFails then o == Outcome([plain], Failed(CloseFailed))
      else if second.Unreachable? then o == Outcome([plain, plain], Failed(Transport))
      else if second.status != 401 then o == Outcome([plain, plain], Got(second.status, second.challenge))
      else if second.closeFails then o == Outcome([plain, plain], Failed(CloseFailed))
      else
        match answer(op, second.challenge, cnonce)
        case Err(e) => o == Outcome([plain, plain], Failed(BadChallenge(e)))
        case Ok(header) =>
          && o.sent == [plain, plain, Exchange(op, Some(header))]
          && o.result == if third.Unreachable? then Failed(Transport) else Got(third.status, third.challenge)
  {
  }

  lemma ProbeTraceIsSafe(answer: Answerer, replies: seq<Reply>, n: nat, cnonce: Option<string>)
    ensures SafeTrace(answer, replies, n, PROBE, cnonce, ProbeRun(answer, replies, n, cnonce).sent)
  {
    RequestShape(answer, replies, n, PROBE, false, cnonce);
    RequestShape(answer, replies, n + 1, PROBE, true, cnonce);
  }

  // ------------------------------------------------------------ classification

  predicate Has(r: Reply, status: int) {
    r.Reply? && r.status == status
  }

  predicate Succeeds(r: Reply) {
    r.Reply? && 200 <= r.status < 300
  }

  /** The challenge of the second exchange could be answered. */
  predicate CanAnswer(answer: Answerer, replies: seq<Reply>, n: nat, cnonce: Option<string>) {
    var r := ReplyTo(replies, n + 1);
    Challenged(r) && !r.closeFails && answer(PROBE, r.challenge, cnonce).Ok?
  }

  /** The reply that decides a probe which was challenged at first. */
  function Deciding(answer: Answerer, replies: seq<Reply>, n: nat, cnonce: Option<string>): Reply {
    if CanAnswer(answer, replies, n, cnonce) then ReplyTo(replies, n + 2)
    else if Challenged(ReplyTo(replies, n + 1)) then Unreachable
    else ReplyTo(replies, n + 1)
  }

  /** The number of exchanges of a probe, by what it meets. */
  ghost predicate Sends(sent: seq<Exchange>, first: Reply, second: Reply, answered: bool) {
    |sent| ==
      if first.Unreachable? || first.status != 401 || first.challenge == "" then 1
      else if second.Unreachable? || second.status != 401 || second.closeFails || !answered then 2
      else 3
  }

  /** A probe is over after a reply that is not a challenge, after a second plain request if
      that is not challenged in turn or cannot be answered, and otherwise after the answer. */
  lemma ProbeExchanges(answer: Answerer, replies: seq<Reply>, n: nat, cnonce: Option<string>)
    ensures
      var first, second := ReplyTo(replies, n), ReplyTo(replies, n + 1);
      Sends(ProbeRun(answer, replies, n, cnonce).sent, first, second,
            second.Reply? && answer(Operation("GET", "device/info", None), second.challenge, cnonce).Ok?)
  {
  }

  /** What a probe that is unreachable reports: the transport, the close or the challenge
      that failed, or else the status that was not expected. */
  lemma ProbeFailure(answer: Answerer, replies: seq<Reply>, n: nat, cnonce: Option<string>)
    requires ProbeRun(answer, replies, n, cnonce).result.err.Some?
    ensures
      var first, second, last := ReplyTo(replies, n), ReplyTo(replies, n + 1), Deciding(answer, replies, n, cnonce);
      ProbeRun(answer, replies, n, cnonce).result.err.value ==
        if first.Unreachable? then Transport
        else if first.status != 401 then UnexpectedStatus(first.status)
        else if second.Unreachable? then Transport
        else if last.Reply? then UnexpectedStatus(last.status)
        else if second.status == 401 && second.closeFails then CloseFailed
        else if second.status == 401 && answer(PROBE, second.challenge, cnonce).Err? then
          BadChallenge(answer(PROBE, second.challenge, cnonce).error)
        else Transport
  {
  }

  /** A probe errs exactly when its state is unreachable, and each other state has its
      one cause. */
  ghost predicate Explained(answer: Answerer, replies: seq<Reply>, n: nat, cnonce: Option<string>, p: Probed) {
    var first := ReplyTo(replies, n);
    var last := Deciding(answer, replies, n, cnonce);
    && (p.err.Some? <==> p.state == PhoneUnreachable)
    && (p.state == ApiDisabled <==> Has(first, 404))
    && (p.state == AuthFailed <==> Challenged(first) && (first.challenge == "" || Challenged(last)))
    && (p.state == OK <==>
         || Has(first, 200) || Has(first, 201) || Has(first, 202) || Has(first, 204)
         || (Challenged(first) && first.challenge != "" && Succeeds(last)))
  }

  lemma ProbeStates(answer: Answerer, replies: seq<Reply>, n: nat, cnonce: Option<string>)
    ensures Explained(answer, replies, n, cnonce, ProbeRun(answer, replies, n, cnonce).result)
  {
  }

  /** A success status counts as reachable after the challenge, whichever it is; met at
      once it is classified differently exactly when it is not 200, 201, 202 or 204. */
  lemma SuccessesDifferIff(answer: Answerer, cnonce: Option<string>, status: int, challenge: string, plain: seq<Reply>,
                           more: seq<Reply>)
    requires 200 <= status < 300 && challenge != ""
    requires plain != [] && Has(plain[0], status) && more != [] && Has(more[0], status)
    ensures
      var atOnce := ProbeRun(answer, plain, 0, cnonce).result;
      var after := ProbeRun(answer, [Reply(401, challenge, false)] + more, 0, cnonce).result;
      && after == Probed(OK, None)
      && (atOnce != after <==> status !in {200, 201, 202, 204})
      && (atOnce != after ==> atOnce == Probed(PhoneUnreachable, Some(UnexpectedStatus(status))))
  {
    var replies := [Reply(401, challenge, false)] + more;
    assert replies[0] == Reply(401, challenge, false) && replies[1] == more[0];
  }

  // ---------------------------------------------------------------- the client

  /** The client with the exchanges it has made against a script of replies. */
  class Client {
    const answer: Answerer
    const replies: seq<Reply>
    var sent: seq<Exchange>

    constructor (answer: Answerer, replies: seq<Reply>)
      ensures this.answer == answer && this.replies == replies && sent == []
    {
      this.answer, this.replies, sent := answer, replies, [];
    }

    /** Sends one exchange and takes the reply the script has for it. */
    method Do(exchange: Exchange) returns (r: Reply)
      modifies this
      ensures sent == old(sent) + [exchange] && r == ReplyTo(replies, |old(sent)|)
    {
      r := ReplyTo(replies, |sent|);
      sent := sent + [exchange];
    }

    method SendRequest(op: Operation, withDigest: bool, cnonce: Option<string>) returns (r: Response)
      modifies this
      ensures sent == old(sent) + RequestRun(answer, replies, |old(sent)|, op, withDigest, cnonce).sent
      ensures r == RequestRun(answer, replies, |old(sent)|, op, withDigest, cnonce).result
    {
      var reply := Do(Exchange(op, None));
      if !withDigest || reply.Unreachable? || reply.status != 401 {
        return Answered(reply);
      }
      if reply.closeFails {
        return Failed(CloseFailed);
      }
      var authorization := answer(op, reply.challenge, cnonce);
      if authorization.Err? {
        return Failed(BadChallenge(authorization.error));
      }
      reply := Do(Exchange(op, Some(authorization.value)));
      r := Answered(reply);
    }

    method AuthenticatedRequest(op: Operation, cnonce: Option<string>) returns (r: Response)
      modifies this
      ensures sent == old(sent) + AuthenticatedRun(answer, replies, |old(sent)|, op, cnonce).sent
      ensures r == AuthenticatedRun(answer, replies, |old(sent)|, op, cnonce).result
      ensures old(sent) <= sent && SafeTrace(answer, replies, |old(sent)|, op, cnonce, sent[|old(sent)|..])
      ensures r.Got? && r.status == 401 ==> sent[|sent| - 1].authorization.Some?
    {
      AuthenticatedTraceIsSafe(answer, replies, |sent|, op, cnonce);
      AuthenticatedResult(answer, replies, |sent|, op, cnonce);
      r := SendRequest(op, false, cnonce);
      if r.Failed? || r.status != 401 {
        return;
      }
      if ReplyTo(replies, |sent| - 1).closeFails {
        return Failed(CloseFailed);
      }
      r := SendRequest(op, true, cnonce);
    }

    method Probe(cnonce: Option<string>) returns (p: Probed)
      modifies this
      ensures sent == old(sent) + ProbeRun(answer, replies, |old(sent)|, cnonce).sent
      ensures p == ProbeRun(answer, replies, |old(sent)|, cnonce).result
      ensures old(sent) <= sent && SafeTrace(answer, replies, |old(sent)|, PROBE, cnonce, sent[|old(sent)|..])
      ensures Explained(answer, replies, |old(sent)|, cnonce, p)
    {
      ProbeTraceIsSafe(answer, replies, |sent|, cnonce);
      ProbeStates(answer, replies, |sent|, cnonce);
      var r := SendRequest(PROBE, false, cnonce);
      if r.Failed? {
        return Probed(PhoneUnreachable, Some(r.failure));
      }
      if r.status == 404 {
        return Probed(ApiDisabled, None);
      }
      if r.status == 401 {
        if r.challenge == "" {
          return Probed(AuthFailed, None);
        }
        r := SendRequest(PROBE, true, cnonce);
        return Classify(r);
      }
      p := if r.status in {200, 201, 202, 204} then Probed(OK, None)
           else Probed(PhoneUnreachable, Some(UnexpectedStatus(r.status)));
    }
  }

  // ---------------------------------------------------- with a Digest challenge

  /** A phone that challenges both plain requests, the second time with ASCII Digest
      fields and a supported algorithm or none, receives in the third an Authorization
      its server side accepts under the algorithm it meant. */
  lemma ThirdExchangeIsAccepted(f: Fold, h: Hash, who: Credentials, uri: string -> string, op: Operation,
                                realm: string, nonce: string, opaqueValue: string, algorithm: Option<string>,
                                qop: string, cnonce: string, first: Reply, later: seq<Reply>)
    returns (challenge: string, t: Terms)
    requires HexHash(h) && IsHex(cnonce)
    requires realm != "" && nonce != ""
    requires Ascii(realm) && Ascii(nonce) && Ascii(opaqueValue) && Ascii(qop) && Ascii(uri(op.endpoint))
    requires Ascii(who.username)
    requires (algorithm.Some? ==> IsToken(algorithm.value)) && Supported(InForce(f, algorithm))
    requires Challenged(first) && !first.closeFails
    ensures challenge == "Digest " + Render(ChallengeParams(realm, nonce, opaqueValue, algorithm, qop))
    ensures t == Terms(realm, nonce, opaqueValue, InForce(f, algorithm), SelectQop(qop))
    ensures
      var sent := AuthenticatedRun(DigestAnswerer(f, h, who, uri), [first, Reply(401, challenge, false)] + later, 0,
                                   op, Some(cnonce)).sent;
      && |sent| == 3 && sent[2].authorization.Some? && "Digest " <= sent[2].authorization.value
      && var v := Received(f, sent[2].authorization.value);
         Recovered(v, t, Request(op.verb, uri(op.endpoint)), who,
                   Expected(h, InForce(f, algorithm), v, op.verb, who.password), cnonce)
  {
    challenge, t := ExchangeSucceeds(f, h, realm, nonce, opaqueValue, algorithm, qop,
                                     Request(op.verb, uri(op.endpoint)), who, cnonce);
    ThreeExchanges(DigestAnswerer(f, h, who, uri), op, first, challenge, later, Some(cnonce));
  }

  lemma ThreeExchanges(answer: Answerer, op: Operation, first: Reply, challenge: string, later: seq<Reply>,
                       cnonce: Option<string>)
    requires Challenged(first) && !first.closeFails && answer(op, challenge, cnonce).Ok?
    ensures AuthenticatedRun(answer, [first, Reply(401, challenge, false)] + later, 0, op, cnonce).sent
         == [Exchange(op, None), Exchange(op, None), Exchange(op, Some(answer(op, challenge, cnonce).value))]
  {
    var replies := [first, Reply(401, challenge, false)] + later;
    assert replies[0] == first && replies[1] == Reply(401, challenge, false);
  }
}
