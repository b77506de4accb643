/** ModelRouter.complete of app/llm/router.py, with its chains. */
module ModelRouter {
  import opened Domain
  import opened PythonText
  import opened Patterns
  import opened Redactor

  /** `place` is where the same message object first stands in the list. */
  datatype Message = Message(role: string, content: string, place: nat)

  /** What a provider sees of a request. */
  datatype Sent = Sent(messages: seq<Message>, model: string, systemPrompt: Option<string>)

  datatype Reply = Answer(content: string) | Failure(error: string)

  /** The providers are foreign: what the one named says, at this position of the chain, to
      this request. */
  type World = (nat, string, Sent) -> Reply

  type Engine = (Kind, string) -> seq<string>

  datatype Route = Route(provider: string, model: string)

  const LOCAL := "ollama"
  const HOSTED := "gemini"

  datatype Purpose = Classification | Extraction | Drafting | Routing | Quality | Embedding | Reranking | Default

  function ChainFor(purpose: Purpose): seq<Route> {
    var flash, gemma := Route(HOSTED, "gemini-3.1-flash-lite"), Route(LOCAL, "gemma3:4b");
    var qwen2, qwen3 := Route(LOCAL, "qwen2.5:3b"), Route(LOCAL, "qwen3:8b");
    match purpose
    case Classification => [flash, gemma, qwen2]
    case Extraction => [flash, gemma, qwen2]
    case Drafting => [flash, qwen3, gemma]
    case Routing => [flash, qwen2]
    case Quality => [Route(HOSTED, "gemini-3.5-flash"), flash, qwen3]
    case Embedding => [Route(LOCAL, "nomic-embed-text-v2-moe")]
    case Reranking => [flash, gemma]
    case Default => [flash, gemma]
  }

  // ---- What complete() comes to ----

  function Clean(active: seq<Kind>, engine: Engine, text: string): string {
    Redacted(active, engine, text).text
  }

  function CleanTimes(active: seq<Kind>, engine: Engine, text: string, times: nat): string {
    if times == 0 then text else Clean(active, engine, CleanTimes(active, engine, text, times - 1))
  }

  /** How often one message object stands in the list. */
  function Mentions(messages: seq<Message>, place: nat): nat {
    if |messages| == 0 then 0
    else Mentions(messages[..|messages| - 1], place) + if messages[|messages| - 1].place == place then 1 else 0
  }

  /** A message object is redacted as often as it stands in the list. */
  function CleanMessages(active: seq<Kind>, engine: Engine, messages: seq<Message>): (clean: seq<Message>)
    ensures |clean| == |messages|
    ensures forall i | 0 <= i < |messages| ::
              clean[i] == messages[i].(content :=
                CleanTimes(active, engine, messages[i].content, Mentions(messages, messages[i].place)))
  {
    seq(|messages|, i requires 0 <= i < |messages| =>
          messages[i].(content := CleanTimes(active, engine, messages[i].content, Mentions(messages, messages[i].place))))
  }

  function CleanPrompt(active: seq<Kind>, engine: Engine, prompt: Option<string>): Option<string> {
    if prompt.Some? && prompt.value != "" then Some(Clean(active, engine, prompt.value)) else prompt
  }

  function CleanRequest(active: seq<Kind>, engine: Engine, request: Sent): Sent {
    Sent(CleanMessages(active, engine, request.messages), request.model, CleanPrompt(active, engine, request.systemPrompt))
  }

  /** The request as this route's provider gets it. */
  function Prepared(active: seq<Kind>, engine: Engine, redactPii: bool, request: Sent, route: Route): Sent {
    var addressed := request.(model := route.model);
    if redactPii && route.provider != LOCAL then CleanRequest(active, engine, addressed) else addressed
  }

  datatype Outcome = Answered(content: string, at: nat) | AllFailed(errors: seq<string>)

  /** One call of a provider. */
  datatype Call = Call(at: nat, provider: string, request: Sent, reply: Reply)

  function CallAt(active: seq<Kind>, engine: Engine, redactPii: bool, request: Sent, chain: seq<Route>, world: World, i: nat): Call
    requires i < |chain|
  {
    var sent := Prepared(active, engine, redactPii, request, chain[i]);
    Call(i, chain[i].provider, sent, world(i, chain[i].provider, sent))
  }

  /** The calls that the first n routes lead to: those whose provider is set up. */
  function CallsOf(providers: set<string>, active: seq<Kind>, engine: Engine, redactPii: bool, request: Sent,
                   chain: seq<Route>, world: World, n: nat): seq<Call>
    requires n <= |chain|
  {
    if n == 0 then []
    else
      var before := CallsOf(providers, active, engine, redactPii, request, chain, world, n - 1);
      if chain[n - 1].provider in providers
      then before + [CallAt(active, engine, redactPii, request, chain, world, n - 1)]
      else before
  }

  predicate AllFail(calls: seq<Call>) {
    forall i | 0 <= i < |calls| :: calls[i].reply.Failure?
  }

  function ErrorsOf(chain: seq<Route>, calls: seq<Call>): seq<string> {
    if |calls| == 0 then []
    else
      var last := calls[|calls| - 1];
      if last.at < |chain| && last.reply.Failure?
      then ErrorsOf(chain, calls[..|calls| - 1]) + [ErrorText(chain[last.at], last.reply.error)]
      else ErrorsOf(chain, calls[..|calls| - 1])
  }

  lemma LastCall(chain: seq<Route>, calls: seq<Call>, call: Call)
    requires call.at < |chain| && AllFail(calls)
    ensures call.reply.Failure? ==>
              && AllFail(calls + [call])
              && ErrorsOf(chain, calls + [call]) == ErrorsOf(chain, calls) + [ErrorText(chain[call.at], call.reply.error)]
    ensures call.reply.Answer? ==> Explains(chain, Answered(call.reply.content, call.at), calls + [call])
  {
    assert (calls + [call])[..|calls|] == calls;
  }

  /** How much of the chain was used. */
  function StopOf(outcome: Outcome, chain: seq<Route>): (n: nat)
    ensures n <= |chain|
  {
    if outcome.Answered? && outcome.at < |chain| then outcome.at + 1 else |chain|
  }

  /** The outcome is the first answer, or all the errors. */
  predicate Explains(chain: seq<Route>, outcome: Outcome, calls: seq<Call>) {
    match outcome
    case Answered(content, at) =>
      && |calls| > 0 && calls[|calls| - 1].at == at && calls[|calls| - 1].reply == Answer(content)
      && AllFail(calls[..|calls| - 1])
    case AllFailed(errors) => AllFail(calls) && errors == ErrorsOf(chain, calls)
  }

  /** The error text of a failed call. */
  function ErrorText(route: Route, error: string): string {
    route.provider + "/" + route.model + ": " + error
  }

  // ---- Requests as objects ----

  class LLMMessage {
    var role: string
    var content: string

    constructor (role: string, content: string)
      ensures this.role == role && this.content == content
    {
      this.role, this.content := role, content;
    }
  }

  /** Where the object first stands in the list. */
  function PlaceOf(messages: seq<LLMMessage>, message: LLMMessage): (place: nat)
    ensures message in messages ==> place < |messages| && messages[place] == message
    ensures forall j | 0 <= j < place && j < |messages| :: messages[j] != message
  {
    if |messages| == 0 || messages[0] == message then 0 else 1 + PlaceOf(messages[1..], message)
  }

  function ViewOf(messages: seq<LLMMessage>): (view: seq<Message>)
    reads messages
    ensures |view| == |messages|
    ensures forall i | 0 <= i < |messages| :: view[i] == SeenAs(messages, i)
  {
    seq(|messages|, i requires 0 <= i < |messages| reads messages => SeenAs(messages, i))
  }

  function SeenAs(messages: seq<LLMMessage>, i: nat): Message
    requires i < |messages|
    reads messages
  {
    Message(messages[i].role, messages[i].content, PlaceOf(messages, messages[i]))
  }

  /** The same objects stand at the same positions. */
  predicate SamePattern(a: seq<LLMMessage>, b: seq<LLMMessage>) {
    |a| == |b| && forall i, j | 0 <= i < |a| && 0 <= j < |a| :: a[i] == a[j] <==> b[i] == b[j]
  }

  lemma SamePlaces(a: seq<LLMMessage>, b: seq<LLMMessage>, i: nat)
    requires SamePattern(a, b) && i < |a|
    ensures PlaceOf(a, a[i]) == PlaceOf(b, b[i])
  {
    var p, q := PlaceOf(a, a[i]), PlaceOf(b, b[i]);
    assert a[p] == a[i] && b[q] == b[i];
    assert b[p] == b[i] && a[q] == a[i];
  }

  class LLMRequest {
    var messages: seq<LLMMessage>
    var model: string
    var systemPrompt: Option<string>

    constructor (messages: seq<LLMMessage>, model: string, systemPrompt: Option<string>)
      ensures this.messages == messages && this.model == model && this.systemPrompt == systemPrompt
    {
      this.messages, this.model, this.systemPrompt := messages, model, systemPrompt;
    }

    function View(): (view: Sent)
      reads this, messages
    {
      Sent(ViewOf(messages), model, systemPrompt)
    }

    /** model_copy(deep=True): an object that stands in the list twice is copied once. */
    method DeepCopy() returns (copy: LLMRequest)
      ensures fresh(copy) && fresh(copy.messages)
      ensures copy.View() == View()
    {
      var copies: seq<LLMMessage> := [];
      var memo: map<LLMMessage, LLMMessage> := map[];
      for i := 0 to |messages|
        invariant |copies| == i
        invariant forall j | 0 <= j < i :: messages[j] in memo && copies[j] == memo[messages[j]]
        invariant forall m | m in memo :: fresh(memo[m]) && memo[m].role == m.role && memo[m].content == m.content
        invariant forall m, n | m in memo && n in memo && memo[m] == memo[n] :: m == n
      {
        if messages[i] !in memo {
          var message := new LLMMessage(messages[i].role, messages[i].content);
          memo := memo[messages[i] := message];
        }
        copies := copies + [memo[messages[i]]];
      }
      assert SamePattern(copies, messages);
      copy := new LLMRequest(copies, model, systemPrompt);
      forall i | 0 <= i < |messages|
        ensures SeenAs(copies, i) == SeenAs(messages, i)
      {
        SamePlaces(copies, messages, i);
      }
      assert ViewOf(copies) == ViewOf(messages);
    }
  }

  lemma {:induction false} NothingFoundNothingChanged(active: seq<Kind>, engine: Engine, text: string, entries: Entries)
    ensures var (after, all) := AfterPatterns(active, engine, text, entries);
            |all| >= |entries| && (|all| == |entries| ==> after == text)
    decreases |active|
  {
    if |active| == 0 {
    } else {
      MatchesGrow(active[0], engine(active[0], text), text, entries);
      var (middle, grown) := AfterMatches(active[0], engine(active[0], text), text, entries);
      NothingFoundNothingChanged(active[1..], engine, middle, grown);
    }
  }

  /** The message at j once the first i positions have been redacted. */
  predicate CleanedSoFar(messages: seq<LLMMessage>, was: seq<Message>, active: seq<Kind>, engine: Engine, i: nat, j: nat)
    requires i <= |was| == |messages| && j < |messages|
    reads messages
  {
    && was[j].place == PlaceOf(messages, messages[j]) && messages[j].role == was[j].role
    && messages[j].content == CleanTimes(active, engine, was[j].content, Mentions(was[..i], was[j].place))
  }

  predicate AllCleaned(messages: seq<LLMMessage>, was: seq<Message>, active: seq<Kind>, engine: Engine, i: nat)
    requires i <= |was| == |messages|
    reads messages
  {
    forall j | 0 <= j < |messages| :: CleanedSoFar(messages, was, active, engine, i, j)
  }

  lemma MentionsNext(was: seq<Message>, i: nat, place: nat)
    requires i < |was|
    ensures Mentions(was[..i + 1], place) == Mentions(was[..i], place) + if was[i].place == place then 1 else 0
  {
    assert was[..i + 1][..i] == was[..i];
  }

  // ---- The router ----

  class Router {
    const redactor: PIIRedactor
    /** The names of the providers that were set up. */
    const providers: set<string>
    /** Every call of a provider so far, and the answers the usage tracker saw. */
    var calls: seq<Call>
    var tracked: seq<string>

    constructor (redactor: PIIRedactor, geminiKey: bool)
      ensures this.redactor == redactor && calls == [] && tracked == []
      ensures providers == (if geminiKey then {HOSTED} else {}) + {LOCAL}
    {
      this.redactor, calls, tracked := redactor, [], [];
      providers := (if geminiKey then {HOSTED} else {}) + {LOCAL};
    }

    method RedactText(text: string, engine: Engine) returns (clean: string)
      ensures clean == Clean(redactor.active, engine, text)
    {
      var result := redactor.Redact(text, engine);
      NothingFoundNothingChanged(redactor.active, engine, text, []);
      clean := if result.count > 0 then result.text else text;
    }

    method RedactMessage(messages: seq<LLMMessage>, i: nat, engine: Engine, ghost was: seq<Message>)
      requires i < |was| == |messages| && AllCleaned(messages, was, redactor.active, engine, i)
      modifies {messages[i]}
      ensures AllCleaned(messages, was, redactor.active, engine, i + 1)
    {
      var clean := RedactText(messages[i].content, engine);
      assert CleanedSoFar(messages, was, redactor.active, engine, i, i);
      messages[i].content := clean;
      ghost var next := i + 1;
      forall j | 0 <= j < |messages|
        ensures CleanedSoFar(messages, was, redactor.active, engine, next, j)
      {
        assert old(CleanedSoFar(messages, was, redactor.active, engine, i, j));
        MentionsNext(was, i, was[j].place);
      }
    }

    /** Redacts messages in place. */
    method RedactMessages(messages: seq<LLMMessage>, engine: Engine)
      modifies messages
      ensures ViewOf(messages) == CleanMessages(redactor.active, engine, old(ViewOf(messages)))
    {
      ghost var was := ViewOf(messages);
      for i := 0 to |messages|
        invariant AllCleaned(messages, was, redactor.active, engine, i)
      {
        RedactMessage(messages, i, engine, was);
      }
      assert was[..|messages|] == was;
      forall j | 0 <= j < |messages|
        ensures SeenAs(messages, j) == CleanMessages(redactor.active, engine, was)[j]
      {
        assert CleanedSoFar(messages, was, redactor.active, engine, |messages|, j);
      }
      assert ViewOf(messages) == CleanMessages(redactor.active, engine, was);
    }

    /** Redacts a request in place. */
    method RedactRequest(request: LLMRequest, engine: Engine)
      modifies request`systemPrompt, request.messages
      ensures request.View() == CleanRequest(redactor.active, engine, old(request.View()))
    {
      RedactMessages(request.messages, engine);
      ghost var clean := ViewOf(request.messages);
      request.systemPrompt := RedactPrompt(request.systemPrompt, engine);
      assert ViewOf(request.messages) == clean;
    }

    method RedactPrompt(prompt: Option<string>, engine: Engine) returns (clean: Option<string>)
      ensures clean == CleanPrompt(redactor.active, engine, prompt)
    {
      clean := prompt;
      if prompt.Some? && prompt.value != "" {
        var text := RedactText(prompt.value, engine);
        clean := Some(text);
      }
    }

    method CopyFor(request: LLMRequest, model: string) returns (copy: LLMRequest)
      ensures fresh(copy) && fresh(copy.messages)
      ensures copy.View() == request.View().(model := model)
    {
      copy := request.DeepCopy();
      ghost var copied := copy.View();
      copy.model := model;
      assert copy.View().messages == copied.messages;
    }

    /** What is sent on this route: the caller's request is only read. */
    method Send(request: LLMRequest, route: Route, redactPii: bool, engine: Engine) returns (sent: Sent)
      ensures sent == Prepared(redactor.active, engine, redactPii, request.View(), route)
    {
      var actual := CopyFor(request, route.model);
      ghost var addressed := actual.View();
      if redactPii && route.provider != LOCAL {
        RedactRequest(actual, engine);
        sent := actual.View();
        assert sent == CleanRequest(redactor.active, engine, addressed);
      } else {
        sent := actual.View();
        assert sent == addressed;
      }
    }

    /** One call, and its answer on record. */
    method TryRoute(request: LLMRequest, chain: seq<Route>, i: nat, redactPii: bool, engine: Engine, world: World)
      returns (reply: Reply)
      requires i < |chain|
      modifies this
      ensures request.View() == old(request.View())
      ensures var call := CallAt(redactor.active, engine, redactPii, request.View(), chain, world, i);
              reply == call.reply && calls == old(calls) + [call]
      ensures tracked == old(tracked) + if reply.Answer? then [reply.content] else []
    {
      var sent := Send(request, chain[i], redactPii, engine);
      reply := world(i, chain[i].provider, sent);
      calls := calls + [Call(i, chain[i].provider, sent, reply)];
      if reply.Answer? {
        tracked := tracked + [reply.content];
      }
    }

    /** The calls that this router makes for the first n routes, if it gets that far. */
    function Plan(request: Sent, chain: seq<Route>, redactPii: bool, engine: Engine, world: World, n: nat): seq<Call>
      requires n <= |chain|
    {
      CallsOf(providers, redactor.active, engine, redactPii, request, chain, world, n)
    }

    lemma PlanNext(request: Sent, chain: seq<Route>, redactPii: bool, engine: Engine, world: World, n: nat)
      requires n < |chain|
      ensures Plan(request, chain, redactPii, engine, world, n + 1)
              == Plan(request, chain, redactPii, engine, world, n)
                 + (if chain[n].provider in providers
                    then [CallAt(redactor.active, engine, redactPii, request, chain, world, n)] else [])
    {
    }

    /** The caller's request is outside the modifies clause: nothing of it changes. */
    method Complete(request: LLMRequest, chain: seq<Route>, redactPii: bool, engine: Engine, world: World)
      returns (outcome: Outcome)
      modifies this
      ensures request.View() == old(request.View())
      ensures var made := Plan(request.View(), chain, redactPii, engine, world, StopOf(outcome, chain));
              Explains(chain, outcome, made) && calls == old(calls) + made
      ensures tracked == old(tracked) + match outcome case Answered(content, _) => [content] case AllFailed(_) => []
    {
      var errors: seq<string> := [];
      ghost var view := request.View();
      ghost var made: seq<Call> := [];
      for i := 0 to |chain|
        invariant request.View() == view && tracked == old(tracked)
        invariant made == Plan(view, chain, redactPii, engine, world, i) && calls == old(calls) + made
        invariant AllFail(made) && errors == ErrorsOf(chain, made)
      {
        var route := chain[i];
        PlanNext(view, chain, redactPii, engine, world, i);
        if route.provider !in providers {
          continue;
        }
        var reply := TryRoute(request, chain, i, redactPii, engine, world);
        ghost var call := CallAt(redactor.active, engine, redactPii, view, chain, world, i);
        LastCall(chain, made, call);
        Regroup(old(calls), made, [call]);
        made := made + [call];
        match reply {
          case Answer(content) =>
            assert StopOf(Answered(content, i), chain) == i + 1;
            return Answered(content, i);
          case Failure(error) =>
            errors := errors + [ErrorText(route, error)];
        }
      }
      outcome := AllFailed(errors);
    }
  }

  // ---- What the chain means ----

  predicate MadeFor(providers: set<string>, active: seq<Kind>, engine: Engine, redactPii: bool, request: Sent,
                    chain: seq<Route>, world: World, n: nat, call: Call)
  {
    && call.at < n && call.at < |chain| && chain[call.at].provider in providers
    && call == CallAt(active, engine, redactPii, request, chain, world, call.at)
  }

  /** The calls go to the routes whose provider is set up, to each once and in order. */
  predicate Follow(providers: set<string>, active: seq<Kind>, engine: Engine, redactPii: bool, request: Sent,
                   chain: seq<Route>, world: World, n: nat, calls: seq<Call>)
    requires n <= |chain|
  {
    && (forall j | 0 <= j < |calls| :: MadeFor(providers, active, engine, redactPii, request, chain, world, n, calls[j]))
    && (forall i, j | 0 <= i < j < |calls| :: calls[i].at < calls[j].at)
    && (forall i | 0 <= i < n && chain[i].provider in providers ::
          CallAt(active, engine, redactPii, request, chain, world, i) in calls)
  }

  lemma {:induction false} CallsFollowChain(providers: set<string>, active: seq<Kind>, engine: Engine, redactPii: bool,
                                            request: Sent, chain: seq<Route>, world: World, n: nat)
    requires n <= |chain|
    ensures Follow(providers, active, engine, redactPii, request, chain, world, n,
                   CallsOf(providers, active, engine, redactPii, request, chain, world, n))
  {
    if n == 0 {
    } else {
      CallsFollowChain(providers, active, engine, redactPii, request, chain, world, n - 1);
    }
  }

  /** The first provider that answers decides; a failure means that every one was asked and
      failed, and its errors are theirs, in order. */
  lemma FirstAnswerWins(providers: set<string>, active: seq<Kind>, engine: Engine, redactPii: bool, request: Sent,
                        chain: seq<Route>, world: World, outcome: Outcome)
    requires Explains(chain, outcome, CallsOf(providers, active, engine, redactPii, request, chain, world, StopOf(outcome, chain)))
    ensures outcome.Answered? ==>
              && outcome.at < |chain| && chain[outcome.at].provider in providers
              && CallAt(active, engine, redactPii, request, chain, world, outcome.at).reply == Answer(outcome.content)
    ensures forall i | 0 <= i < |chain| && chain[i].provider in providers && (outcome.Answered? ==> i < outcome.at) ::
              CallAt(active, engine, redactPii, request, chain, world, i).reply.Failure?
  {
    var n := StopOf(outcome, chain);
    var calls := CallsOf(providers, active, engine, redactPii, request, chain, world, n);
    CallsFollowChain(providers, active, engine, redactPii, request, chain, world, n);
    assert outcome.Answered? ==>
        MadeFor(providers, active, engine, redactPii, request, chain, world, n, calls[|calls| - 1]);
    forall i | 0 <= i < |chain| && chain[i].provider in providers && (outcome.Answered? ==> i < outcome.at)
      ensures CallAt(active, engine, redactPii, request, chain, world, i).reply.Failure?
    {
      var call := CallAt(active, engine, redactPii, request, chain, world, i);
      EarlierFailed(chain, outcome, calls, call);
    }
  }

  lemma EarlierFailed(chain: seq<Route>, outcome: Outcome, calls: seq<Call>, call: Call)
    requires Explains(chain, outcome, calls) && call in calls && (outcome.Answered? ==> call.at != outcome.at)
    ensures call.reply.Failure?
  {
    var j :| 0 <= j < |calls| && calls[j] == call;
    if outcome.Answered? {
      assert calls[..|calls| - 1][j] == call;
    }
  }

  lemma {:induction false} OneErrorEach(chain: seq<Route>, calls: seq<Call>)
    requires AllFail(calls) && forall j | 0 <= j < |calls| :: calls[j].at < |chain|
    ensures |ErrorsOf(chain, calls)| == |calls|
    ensures forall j | 0 <= j < |calls| ::
              var route := chain[calls[j].at];
              ErrorsOf(chain, calls)[j] == route.provider + "/" + route.model + ": " + calls[j].reply.error
  {
    if |calls| == 0 {
    } else {
      OneErrorEach(chain, calls[..|calls| - 1]);
    }
  }

  /** The content is redacted, once for every time the message object stands in the list. */
  predicate SeenRedacted(active: seq<Kind>, engine: Engine, messages: seq<Message>, i: nat, seen: Message)
    requires i < |messages|
  {
    var text, times := messages[i].content, Mentions(messages, messages[i].place);
    && times >= 1 && seen.content == CleanTimes(active, engine, text, times)
    && (times == 1 ==> seen.content == Redacted(active, engine, text).text)
  }

  lemma {:induction false} MentionedOnce(messages: seq<Message>, i: nat)
    requires i < |messages|
    ensures Mentions(messages, messages[i].place) >= 1
  {
    var last := |messages| - 1;
    if i < last {
      MentionedOnce(messages[..last], i);
    }
  }

  /** Every call goes to the provider of its route and asks for the model of it. The local
      provider gets every text as the caller wrote it, also after a hosted one has failed; the
      hosted ones get every text redacted. */
  lemma HostedSeesRedacted(providers: set<string>, active: seq<Kind>, engine: Engine, request: Sent, chain: seq<Route>,
                           world: World, n: nat, j: nat)
    requires n <= |chain| && j < |CallsOf(providers, active, engine, true, request, chain, world, n)|
    ensures var call := CallsOf(providers, active, engine, true, request, chain, world, n)[j];
            && call.at < |chain| && call.provider == chain[call.at].provider && call.request.model == chain[call.at].model
            && |call.request.messages| == |request.messages|
            && (forall i | 0 <= i < |request.messages| :: call.request.messages[i].role == request.messages[i].role)
            && (call.provider == "ollama" ==>
                  call.request.messages == request.messages && call.request.systemPrompt == request.systemPrompt)
            && (call.provider != "ollama" ==>
                  && (forall i | 0 <= i < |request.messages| :: SeenRedacted(active, engine, request.messages, i, call.request.messages[i]))
                  && (if request.systemPrompt.Some? && request.systemPrompt.value != ""
                      then call.request.systemPrompt == Some(Redacted(active, engine, request.systemPrompt.value).text)
                      else call.request.systemPrompt == request.systemPrompt))
  {
    CallsFollowChain(providers, active, engine, true, request, chain, world, n);
    var call := CallsOf(providers, active, engine, true, request, chain, world, n)[j];
    assert MadeFor(providers, active, engine, true, request, chain, world, n, call);
    if call.provider != LOCAL {
      forall i | 0 <= i < |request.messages|
        ensures SeenRedacted(active, engine, request.messages, i, call.request.messages[i])
      {
        MentionedOnce(request.messages, i);
      }
    }
  }

  /** Without redaction every provider gets every text as the caller wrote it. */
  lemma UnredactedAsWritten(providers: set<string>, active: seq<Kind>, engine: Engine, request: Sent, chain: seq<Route>,
                            world: World, n: nat, j: nat)
    requires n <= |chain| && j < |CallsOf(providers, active, engine, false, request, chain, world, n)|
    ensures var call := CallsOf(providers, active, engine, false, request, chain, world, n)[j];
            && call.at < |chain| && call.provider == chain[call.at].provider
            && call.request == request.(model := chain[call.at].model)
  {
    CallsFollowChain(providers, active, engine, false, request, chain, world, n);
    var call := CallsOf(providers, active, engine, false, request, chain, world, n)[j];
    assert MadeFor(providers, active, engine, false, request, chain, world, n, call);
  }

  /** A hosted model is asked first for everything but embeddings, and a local one last. */
  lemma RoutesMean(purpose: Purpose)
    ensures var chain := ChainFor(purpose);
            && |chain| > 0
            && (purpose.Embedding? ==> chain == [Route("ollama", "nomic-embed-text-v2-moe")])
            && (!purpose.Embedding? ==>
                  chain[0] == Route("gemini", if purpose.Quality? then "gemini-3.5-flash" else "gemini-3.1-flash-lite"))
            && (purpose.Quality? ==> chain[1..] == [Route("gemini", "gemini-3.1-flash-lite"), Route("ollama", "qwen3:8b")])
            && (purpose.Classification? || purpose.Extraction? ==>
                  chain[1..] == [Route("ollama", "gemma3:4b"), Route("ollama", "qwen2.5:3b")])
            && (purpose.Drafting? ==> chain[1..] == [Route("ollama", "qwen3:8b"), Route("ollama", "gemma3:4b")])
            && (purpose.Routing? ==> chain[1..] == [Route("ollama", "qwen2.5:3b")])
            && (purpose.Reranking? || purpose.Default? ==> chain[1..] == [Route("ollama", "gemma3:4b")])
  {
  }

  /** The last resort of every purpose is a local model, which is always set up: a request is
      never turned away without having been tried. */
  lemma LastResortIsLocal(purpose: Purpose, providers: set<string>, active: seq<Kind>, engine: Engine, redactPii: bool,
                          request: Sent, world: World)
    requires LOCAL in providers
    ensures var chain := ChainFor(purpose);
            && |chain| > 0 && chain[|chain| - 1].provider == LOCAL
            && CallAt(active, engine, redactPii, request, chain, world, |chain| - 1)
               in CallsOf(providers, active, engine, redactPii, request, chain, world, |chain|)
  {
    var chain := ChainFor(purpose);
    assert |chain| > 0 && chain[|chain| - 1].provider == LOCAL;
    CallsFollowChain(providers, active, engine, redactPii, request, chain, world, |chain|);
  }
}
