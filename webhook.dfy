/** The `/callback` webhook and `handle_message` (main.py:63-109): verify the
    signature, load the user's recent memory, build the prompt, ask for a
    completion, strip it, reply, and save the exchange. An exception at any
    step ends the turn, so every later step is skipped.

    The three external services are inputs: whether the signature check
    passes, what the completion call returns (or that it raised), and
    whether the reply call went through. The calls themselves are recorded
    as effects, in the order they are made. */
module Webhook {
  import opened Memory
  import opened PromptAssembly
  import opened Text

  /** The result of a call into a foreign client: a value, or an exception. */
  datatype Outcome<T> = Ok(value: T) | Err

  /** The event the webhook handler dispatches. Only a text message reaches
      `handle_message`; any other event has no handler here. */
  datatype Event =
    | TextMessage(userId: UserId, text: string, replyToken: string)
    | OtherEvent

  /** What `callback` answers: "OK" (200), `abort(400)`, or an exception that
      escaped the handler (500). */
  datatype Response = Accepted | BadRequest | ServerError

  function StatusCode(r: Response): int {
    match r
    case Accepted => 200
    case BadRequest => 400
    case ServerError => 500
  }

  /** One call to an external service. */
  datatype Effect =
    | LoadedHistory(user: UserId, limit: nat)
    | RequestedCompletion(model: string, messages: seq<Message>)
    | Replied(replyToken: string, text: string, delivered: bool)
    | Saved(user: UserId, exchange: Exchange)

  /** The model and the persona the completion request names; in the
      deployed bot they are the constants of main.py:90 and main.py:93. */
  datatype Config = Config(model: string, persona: string)

  const Deployed: Config := Config(Model, Persona)

  /** A whole request: the response, the calls made, and the collection afterwards. */
  datatype Run = Run(response: Response, effects: seq<Effect>, logs: map<UserId, seq<Exchange>>)

  /** A trace in which every write to memory comes right after a delivered
      reply, on `replyToken`, of the very answer it records. */
  ghost predicate SavesFollowDelivery(effects: seq<Effect>, replyToken: string) {
    forall i :: 0 <= i < |effects| && effects[i].Saved? ==>
      0 < i && effects[i - 1] == Replied(replyToken, effects[i].exchange.answer, true)
  }

  ghost predicate NoSaves(effects: seq<Effect>) {
    forall i :: 0 <= i < |effects| ==> !effects[i].Saved?
  }

  ghost predicate NoReplies(effects: seq<Effect>) {
    forall i :: 0 <= i < |effects| ==> !effects[i].Replied?
  }

  /** `handle_message` on the collection `logs`: load the history, request
      the completion with the prompt built from it, strip the text, reply,
      and save the exchange; a failed call ends the turn. */
  function HandleMessageRun(cfg: Config, logs: map<UserId, seq<Exchange>>, user: UserId, userMsg: string, replyToken: string,
                            completion: Outcome<string>, replyDelivered: bool, now: int): (r: Run)
    ensures r.response != BadRequest
    ensures r.response == Accepted <==> completion.Ok? && replyDelivered
    ensures |r.effects| >= 2 && r.effects[0] == LoadedHistory(user, DefaultLimit)
  {
    var load := LoadedHistory(user, DefaultLimit);
    var request := RequestedCompletion(cfg.model, Prompt(cfg.persona, LoadRecent(LogOf(logs, user), DefaultLimit), userMsg));
    match completion
    case Err => Run(ServerError, [load, request], logs)
    case Ok(content) =>
      var reply := Replied(replyToken, Strip(content), replyDelivered);
      if !replyDelivered then Run(ServerError, [load, request, reply], logs)
      else
        var e := Exchange(now, userMsg, reply.text);
        Run(Accepted, [load, request, reply, Saved(user, e)], Appended(logs, user, e))
  }

  /** At most one reply call per request, so the reply token is used once. */
  ghost predicate AtMostOneReply(effects: seq<Effect>) {
    forall i, j :: 0 <= i < |effects| && 0 <= j < |effects| && effects[i].Replied? && effects[j].Replied? ==> i == j
  }

  /** `callback` for one event. A bad signature gives 400 and touches
      nothing. A text message has its history loaded and a completion
      requested; if the completion fails nothing is sent and nothing stored;
      if the reply fails nothing is stored; only when both succeed is memory
      written, once, with the message and exactly the text that was
      delivered, right after its delivery. */
  function CallbackRun(cfg: Config, logs: map<UserId, seq<Exchange>>, signatureValid: bool, ev: Event,
                       completion: Outcome<string>, replyDelivered: bool, now: int): (r: Run)
    ensures r.response == BadRequest <==> !signatureValid
    ensures !signatureValid ==> r.effects == [] && r.logs == logs
    ensures ev.OtherEvent? ==> r.effects == [] && r.logs == logs
    ensures r.response == Accepted <==>
              signatureValid && (ev.OtherEvent? || (completion.Ok? && replyDelivered))
    ensures signatureValid && ev.TextMessage? ==>
              |r.effects| >= 2 && r.effects[..2] == [LoadedHistory(ev.userId, DefaultLimit),
                                                      RequestedCompletion(cfg.model, Prompt(cfg.persona, LoadRecent(LogOf(logs, ev.userId), DefaultLimit), ev.text))]
    ensures completion.Err? ==> NoReplies(r.effects) && NoSaves(r.effects)
    ensures signatureValid && ev.TextMessage? && completion.Ok? ==>
              |r.effects| >= 3 && r.effects[2] == Replied(ev.replyToken, Strip(completion.value), replyDelivered)
    ensures signatureValid && ev.TextMessage? && completion.Err? ==> |r.effects| == 2
    ensures signatureValid && ev.TextMessage? && completion.Ok? && !replyDelivered ==> |r.effects| == 3
    ensures r.response == Accepted && ev.TextMessage? ==>
              |r.effects| == 4 && r.effects[3] == Saved(ev.userId, Exchange(now, ev.text, Strip(completion.value)))
    ensures (r.response == Accepted && ev.TextMessage?) <==> r.logs != logs
    ensures r.response != Accepted ==> NoSaves(r.effects)
    ensures r.response == Accepted && ev.TextMessage? ==>
              r.logs == Appended(logs, ev.userId, Exchange(now, ev.text, Strip(completion.value)))
    ensures ev.TextMessage? ==> SavesFollowDelivery(r.effects, ev.replyToken)
    ensures AtMostOneReply(r.effects)
  {
    if !signatureValid then Run(BadRequest, [], logs)
    else
      match ev
      case OtherEvent => Run(Accepted, [], logs)
      case TextMessage(user, text, token) =>
        HandleMessageRun(cfg, logs, user, text, token, completion, replyDelivered, now)
  }

  /** The stored exchange's answer has no whitespace at either end. */
  lemma SavedAnswerTrimmed(cfg: Config, logs: map<UserId, seq<Exchange>>, signatureValid: bool, ev: Event,
                           completion: Outcome<string>, replyDelivered: bool, now: int, i: nat)
    requires i < |CallbackRun(cfg, logs, signatureValid, ev, completion, replyDelivered, now).effects|
    requires CallbackRun(cfg, logs, signatureValid, ev, completion, replyDelivered, now).effects[i].Saved?
    ensures Trimmed(CallbackRun(cfg, logs, signatureValid, ev, completion, replyDelivered, now).effects[i].exchange.answer)
  {
  }

  /** Memory after a delivered turn: the next turn of the same user sees the
      exchange just saved as the newest of its window, after the two newest
      it saw before; every other user's memory is as it was. */
  lemma NextTurnRemembers(cfg: Config, logs: map<UserId, seq<Exchange>>, ev: Event, content: string, now: int)
    requires ev.TextMessage?
    ensures var r := CallbackRun(cfg, logs, true, ev, Ok(content), true, now);
            && LoadRecent(LogOf(r.logs, ev.userId), DefaultLimit)
               == LoadRecent(LogOf(logs, ev.userId), DefaultLimit - 1) + [(ev.text, Strip(content))]
            && forall v :: v != ev.userId ==> LogOf(r.logs, v) == LogOf(logs, v)
  {
    var e := Exchange(now, ev.text, Strip(content));
    LoadRecentAfterAppend(LogOf(logs, ev.userId), e, DefaultLimit - 1);
  }

  /** A request keeps every user's log in timestamp order when its clock
      reading is not older than the user's newest exchange. */
  lemma CallbackKeepsOrder(cfg: Config, logs: map<UserId, seq<Exchange>>, signatureValid: bool, ev: Event,
                           completion: Outcome<string>, replyDelivered: bool, now: int)
    requires WellOrdered(logs)
    requires ev.TextMessage? ==> CanAppend(LogOf(logs, ev.userId), now)
    ensures WellOrdered(CallbackRun(cfg, logs, signatureValid, ev, completion, replyDelivered, now).logs)
  {
    var r := CallbackRun(cfg, logs, signatureValid, ev, completion, replyDelivered, now);
    if r.response == Accepted && ev.TextMessage? {
      AppendedWellOrdered(logs, ev.userId, Exchange(now, ev.text, Strip(completion.value)));
    }
  }

  /** The HTTP status of a request as deployed: 400 exactly when the
      signature is bad, 200 exactly when the turn went through (or the event
      has no handler), and 500 when a call raised. */
  lemma DeployedStatus(logs: map<UserId, seq<Exchange>>, signatureValid: bool, ev: Event,
                       completion: Outcome<string>, replyDelivered: bool, now: int)
    ensures var code := StatusCode(CallbackRun(Deployed, logs, signatureValid, ev, completion, replyDelivered, now).response);
            && (code == 400 <==> !signatureValid)
            && (code == 200 <==> signatureValid && (ev.OtherEvent? || (completion.Ok? && replyDelivered)))
            && (code == 500 <==> signatureValid && ev.TextMessage? && !(completion.Ok? && replyDelivered))
  {
  }

  /** A first message from a new user: the prompt is the persona and the
      message alone, the stripped completion is sent, and the store then
      holds that one exchange. */
  lemma FreshUserTurn(cfg: Config)
    ensures var r := CallbackRun(cfg, map[], true, TextMessage("U1", "hello", "T1"), Ok("Hi there\n"), true, 100);
            var e := Exchange(100, "hello", "Hi there");
            && r.response == Accepted
            && r.effects == [LoadedHistory("U1", 3),
                             RequestedCompletion(cfg.model, [Message(System, cfg.persona), Message(User, "hello")]),
                             Replied("T1", "Hi there", true),
                             Saved("U1", e)]
            && r.logs == map["U1" := [e]]
  {
    assert AllSpace("\n");
    assert [] + "Hi there" + "\n" == "Hi there\n";
    StripUnique([], "Hi there", "\n");
    LoadRecentEmpty(DefaultLimit);
    assert Prompt(cfg.persona, [], "hello") == [Message(System, cfg.persona), Message(User, "hello")];
    var e := Exchange(100, "hello", "Hi there");
    assert LogOf(map[], "U1") + [e] == [e];
  }

  /** A returning user with at least three stored exchanges: the prompt holds
      the newest three, oldest first, each as question then answer, between
      the persona and the new message. */
  lemma ReturningUserPrompt(cfg: Config, user: UserId, older: seq<Exchange>, e1: Exchange, e2: Exchange, e3: Exchange,
                            msg: string, token: string, completion: Outcome<string>, replyDelivered: bool, now: int)
    ensures var logs := map[user := older + [e1, e2, e3]];
            var r := CallbackRun(cfg, logs, true, TextMessage(user, msg, token), completion, replyDelivered, now);
            r.effects[1] == RequestedCompletion(cfg.model,
              [Message(System, cfg.persona),
               Message(User, e1.question), Message(Assistant, e1.answer),
               Message(User, e2.question), Message(Assistant, e2.answer),
               Message(User, e3.question), Message(Assistant, e3.answer),
               Message(User, msg)])
  {
    var log := older + [e1, e2, e3];
    LoadRecentIsSuffix(log, DefaultLimit);
    assert log[|log| - 3..] == [e1, e2, e3];
    var h := LoadRecent(log, DefaultLimit);
    assert h == [(e1.question, e1.answer), (e2.question, e2.answer), (e3.question, e3.answer)];
    PromptShape(cfg.persona, h, msg);
    PromptAt(cfg.persona, h, msg, 0);
    PromptAt(cfg.persona, h, msg, 1);
    PromptAt(cfg.persona, h, msg, 2);
    var p := Prompt(cfg.persona, h, msg);
    assert p[1] == Message(User, e1.question) && p[2] == Message(Assistant, e1.answer);
    assert p[3] == Message(User, e2.question) && p[4] == Message(Assistant, e2.answer);
    assert p[5] == Message(User, e3.question) && p[6] == Message(Assistant, e3.answer);
  }

  /** `handle_message` over the store, step by step. `ok` is false when one
      of the calls raised. */
  method HandleMessage(cfg: Config, store: Store, user: UserId, userMsg: string, replyToken: string,
                       completion: Outcome<string>, replyDelivered: bool, now: int)
    returns (ok: bool, effects: seq<Effect>)
    requires store.Valid() && CanAppend(LogOf(store.logs, user), now)
    modifies store
    ensures store.Valid()
    ensures Run(if ok then Accepted else ServerError, effects, store.logs)
            == HandleMessageRun(cfg, old(store.logs), user, userMsg, replyToken, completion, replyDelivered, now)
  {
    var history := store.LoadRecentMemory(user, DefaultLimit);
    effects := [LoadedHistory(user, DefaultLimit)];
    var messages := AssembleMessages(cfg.persona, history, userMsg);
    effects := effects + [RequestedCompletion(cfg.model, messages)];
    if completion.Err? {
      return false, effects;
    }
    var replyText := Strip(completion.value);
    effects := effects + [Replied(replyToken, replyText, replyDelivered)];
    if !replyDelivered {
      return false, effects;
    }
    store.SaveMemory(user, userMsg, replyText, now);
    effects := effects + [Saved(user, Exchange(now, userMsg, replyText))];
    ok := true;
  }

  /** `callback`: reject a bad signature with 400, otherwise dispatch the
      event and answer "OK", or 500 when the handler raised. */
  method Callback(cfg: Config, store: Store, signatureValid: bool, ev: Event,
                  completion: Outcome<string>, replyDelivered: bool, now: int)
    returns (response: Response, effects: seq<Effect>)
    requires store.Valid()
    requires ev.TextMessage? ==> CanAppend(LogOf(store.logs, ev.userId), now)
    modifies store
    ensures store.Valid()
    ensures Run(response, effects, store.logs)
            == CallbackRun(cfg, old(store.logs), signatureValid, ev, completion, replyDelivered, now)
  {
    if !signatureValid {
      return BadRequest, [];
    }
    match ev
    case OtherEvent =>
      response, effects := Accepted, [];
    case TextMessage(user, text, token) =>
      var ok;
      ok, effects := HandleMessage(cfg, store, user, text, token, completion, replyDelivered, now);
      response := if ok then Accepted else ServerError;
  }
}
