/**
 * The session orchestrator of lib/Core.js: the ordered start and stop of the SDK's
 * modules, sign-in, information retrieval, the transport event handlers and the
 * token-survey listeners. Every module it drives is a collaborator whose answers are
 * parameters; the calls it makes are appended, in order, to `trace`.
 */
module CoreSession {
  import opened Remote

  /**
   * The connection state held by the state manager. `Init` is whatever the state
   * manager holds before the orchestrator's first transition.
   */
  datatype State = Init | Started | Connected | Ready | Reconnecting | Disconnected | Failed

  /** The modules started and stopped by the orchestrator. */
  datatype Part = StateMgr | Http | CPaaS | Rest | Xmpp | Im | Presence | Contacts | Bubbles | Admin | FileServer

  /** A call the orchestrator makes to a collaborator, or an event it emits. */
  datatype Call =
    | StartPart(part: Part)
    | StartRest(token: string)
    | StopPart(part: Part)
    | RestSignin
    | XmppSignin(user: string)
    | GetRosters
    | GetBubbles
    | SendInitialPresence
    | EnableCarbon
    | GetBots
    | RestReconnect
    | StartTokenSurvey
    | EmitSigninRequired

  /** What the REST sign-in answers: the JSON it resolves with, and the user it logged in. */
  datatype Session = Session(json: string, loggedInUser: string)

  /** A bot as the REST service lists it. */
  datatype Bot = Bot(jid: string)

  /** A token-survey handler; each survey registers its own pair, told apart by the survey number. */
  datatype Listener = OnTokenRenewed(survey: nat) | OnTokenExpired(survey: nat)

  /** The rejection of `start` when the options carry no credentials. */
  const MissingCredentials := "Credentials are missing. Check your configuration!"

  // ---------------------------------------------------------------- ordered chains

  /**
   * A chain of `n` steps, each started only after the previous one succeeded, answered
   * by `replies`: the position of the first step that does not succeed, or `n`.
   */
  function FirstFailure<T>(replies: seq<Reply<T>>, n: nat): (k: nat)
    ensures k <= n
    ensures forall j :: 0 <= j < k ==> ReplyAt(replies, j).Ok?
    ensures k < n ==> !ReplyAt(replies, k).Ok?
  {
    if n == 0 then 0
    else
      var k := FirstFailure(replies, n - 1);
      if k < n - 1 then k
      else if ReplyAt(replies, n - 1).Ok? then n
      else n - 1
  }

  /**
   * The calls such a chain issues: every call up to and including the first one that
   * does not succeed, and none after it.
   */
  function Attempted<T>(calls: seq<Call>, replies: seq<Reply<T>>): (r: seq<Call>)
    ensures r <= calls
    ensures forall j :: 0 <= j < |r| - 1 ==> ReplyAt(replies, j).Ok?
    ensures r == calls || (r != [] && !ReplyAt(replies, |r| - 1).Ok?)
    ensures (forall j :: 0 <= j < |calls| ==> ReplyAt(replies, j).Ok?) ==> r == calls
  {
    var k := FirstFailure(replies, |calls|);
    if k == |calls| then calls else calls[..k + 1]
  }

  /**
   * How such a chain settles: resolved when every step succeeded, otherwise rejected
   * with the first failure's reason, or pending when that step never answers.
   */
  function Outcome<T>(replies: seq<Reply<T>>, n: nat): (r: Settled<(), string>)
    ensures r.Resolved? <==> forall j :: 0 <= j < n ==> ReplyAt(replies, j).Ok?
    ensures r.Rejected? <==> FirstFailure(replies, n) < n && ReplyAt(replies, FirstFailure(replies, n)).Err?
    ensures r.Rejected? ==> ReplyAt(replies, FirstFailure(replies, n)) == Err(r.error)
    ensures r.Pending? <==> FirstFailure(replies, n) < n && ReplyAt(replies, FirstFailure(replies, n)).NoAnswer?
  {
    var k := FirstFailure(replies, n);
    if k == n then Resolved(())
    else match ReplyAt(replies, k)
      case Err(reason) => Rejected(reason)
      case _ => Pending
  }

  /** A chain that does not resolve issued the call that failed and stopped there. */
  lemma {:induction false} FailedChainEndsAtFailure<T>(calls: seq<Call>, replies: seq<Reply<T>>)
    requires !Outcome(replies, |calls|).Resolved?
    ensures var r := Attempted(calls, replies);
      r != [] && r == calls[..|r|] && !ReplyAt(replies, |r| - 1).Ok? &&
      forall j :: 0 <= j < |r| - 1 ==> ReplyAt(replies, j).Ok?
  {
    var k := FirstFailure(replies, |calls|);
    assert k < |calls|;
    assert Attempted(calls, replies) == calls[..k + 1];
  }

  // ---------------------------------------------------------------- start and stop

  /** The position of the CPaaS start, whose answer is the token handed to the REST start. */
  const CPaaSStep := 2

  /** `start`'s steps in order; the REST start receives the token the CPaaS start resolved with. */
  function StartOrder(token: string): seq<Call>
  {
    [StartPart(StateMgr), StartPart(Http), StartPart(CPaaS), StartRest(token), StartPart(Xmpp), StartPart(Im),
     StartPart(Presence), StartPart(Contacts), StartPart(Bubbles), StartPart(Admin), StartPart(FileServer)]
  }

  /** The token the CPaaS start resolved with (irrelevant when it did not resolve: the chain stops there). */
  function TokenOf(replies: seq<Reply<string>>): string
  {
    if ReplyAt(replies, CPaaSStep).Ok? then ReplyAt(replies, CPaaSStep).value else ""
  }

  /** `stop`'s steps in order: REST first, the state manager last. */
  function StopOrder(): seq<Call>
  {
    [StopPart(Rest), StopPart(CPaaS), StopPart(Http), StopPart(Xmpp), StopPart(Im), StopPart(Presence),
     StopPart(Contacts), StopPart(Bubbles), StopPart(Admin), StopPart(FileServer), StopPart(StateMgr)]
  }

  /** Only the REST start depends on the token; every other step is the same whatever it is. */
  lemma StartOrderOnlyRestTakesToken(a: string, b: string)
    ensures |StartOrder(a)| == |StartOrder(b)| == 11
    ensures forall j :: 0 <= j < 11 && j != CPaaSStep + 1 ==> StartOrder(a)[j] == StartOrder(b)[j]
    ensures StartOrder(a)[CPaaSStep + 1] == StartRest(a)
  {
  }

  // ---------------------------------------------------------------- information retrieval

  /** `bots ? bots.map(bot => bot.jid) : []` */
  function BotJids(bots: Option<seq<Bot>>): (r: seq<string>)
    ensures bots.None? ==> r == []
    ensures bots.Some? ==> |r| == |bots.value| && forall j :: 0 <= j < |r| ==> r[j] == bots.value[j].jid
  {
    match bots
    case None => []
    case Some(list) => seq(|list|, j requires 0 <= j < |list| => list[j].jid)
  }

  /** `_retrieveInformation`'s steps in order; the last one lists the bots. */
  function RetrieveOrder(): seq<Call>
  {
    [GetRosters, GetBubbles, SendInitialPresence, EnableCarbon, GetBots]
  }

  /** What information retrieval did: how it settled, the calls it made, the bot JIDs it stored. */
  datatype Retrieved = Retrieved(result: Settled<(), string>, calls: seq<Call>, botsJids: Option<seq<string>>)

  /**
   * `_retrieveInformation` answered by `steps` (rosters, bubbles, presence, carbon) and
   * `bots`: the steps run in order and the first failure aborts the rest; the bot JIDs
   * are stored exactly when everything succeeded.
   */
  function Retrieval(steps: seq<Reply<()>>, bots: Reply<Option<seq<Bot>>>): (r: Retrieved)
    ensures r.calls <= RetrieveOrder() && r.calls != []
    ensures r.result.Resolved? <==> (forall j :: 0 <= j < 4 ==> ReplyAt(steps, j).Ok?) && bots.Ok?
    ensures r.result.Resolved? ==> r.calls == RetrieveOrder() && r.botsJids == Some(BotJids(bots.value))
    ensures !r.result.Resolved? ==> r.botsJids.None?
    ensures GetBots in r.calls ==> forall j :: 0 <= j < 4 ==> ReplyAt(steps, j).Ok?
    ensures var k := FirstFailure(steps, 4);
      k < 4 ==>
        && r.calls == RetrieveOrder()[..k + 1]
        && r.result == (if ReplyAt(steps, k).Err? then Rejected(ReplyAt(steps, k).reason) else Pending)
    ensures FirstFailure(steps, 4) == 4 ==>
      && r.calls == RetrieveOrder()
      && (bots.Err? ==> r.result == Rejected(bots.reason))
      && (bots.NoAnswer? ==> r.result == Pending)
  {
    var k := FirstFailure(steps, 4);
    if k < 4 then
      assert RetrieveOrder()[..k + 1] == Attempted(RetrieveOrder()[..4], steps);
      assert GetBots !in RetrieveOrder()[..k + 1];
      Retrieved(Outcome(steps, 4), RetrieveOrder()[..k + 1], None)
    else
      match bots
      case Ok(list) => Retrieved(Resolved(()), RetrieveOrder(), Some(BotJids(list)))
      case Err(reason) => Retrieved(Rejected(reason), RetrieveOrder(), None)
      case NoAnswer => Retrieved(Pending, RetrieveOrder(), None)
  }

  // ---------------------------------------------------------------- the orchestrator

  /** Both handlers of one token survey. */
  function Pair(survey: nat): set<Listener>
  {
    {OnTokenRenewed(survey), OnTokenExpired(survey)}
  }

  class Core {
    /** The options' `hasCredentials`. */
    const hasCredentials: bool
    /** The options' `useCLIMode`. */
    const useCLIMode: bool
    /** The state manager's state; `transitTo` assigns it. */
    var state: State
    /** The calls made to the collaborators and the events emitted, oldest first. */
    var trace: seq<Call>
    /** `_botsjid`: the JIDs of the bots, consulted when events are dispatched. */
    var botsJids: seq<string>
    /** The token-survey handlers registered on the event emitter. */
    var listeners: set<Listener>
    /** How many token surveys have been armed; numbers the next survey. */
    var surveys: nat

    /** Every registered handler belongs to an armed survey whose other handler is registered too. */
    ghost predicate Valid()
      reads this
    {
      forall l :: l in listeners ==> l.survey < surveys && Pair(l.survey) <= listeners
    }

    /** The constructor: no bot known, no survey armed, nothing called yet. */
    constructor(hasCredentials: bool, useCLIMode: bool)
      ensures this.hasCredentials == hasCredentials && this.useCLIMode == useCLIMode
      ensures state == Init && trace == [] && botsJids == [] && listeners == {} && surveys == 0
      ensures Valid()
    {
      this.hasCredentials := hasCredentials;
      this.useCLIMode := useCLIMode;
      state := Init;
      trace := [];
      botsJids := [];
      listeners := {};
      surveys := 0;
    }

    /**
     * start: without credentials it rejects at once, starting nothing. Otherwise the
     * modules start in order, each after the previous one succeeded; the first failure
     * rejects and skips the rest, and the state becomes STARTED only after all of them.
     */
    method Start(replies: seq<Reply<string>>) returns (res: Settled<(), string>)
      modifies this`state, this`trace
      ensures !hasCredentials ==> res == Rejected(MissingCredentials) && state == old(state) && trace == old(trace)
      ensures hasCredentials ==>
        var order := StartOrder(TokenOf(replies));
        && trace == old(trace) + Attempted(order, replies)
        && res == Outcome(replies, |order|)
        && (res.Resolved? ==> state == Started)
        && (!res.Resolved? ==> state == old(state))
    {
      if !hasCredentials {
        return Rejected(MissingCredentials);
      }
      ghost var order := StartOrder(TokenOf(replies));
      var token := "";
      var k := 0;
      while k < 11
        invariant 0 <= k <= 11
        invariant forall j :: 0 <= j < k ==> ReplyAt(replies, j).Ok?
        invariant k > CPaaSStep ==> token == TokenOf(replies)
        invariant state == old(state)
        invariant trace == old(trace) + order[..k]
      {
        StartOrderOnlyRestTakesToken(token, TokenOf(replies));
        assert StartOrder(token)[k] == order[k];
        PrefixGrows(order, k);
        trace := trace + [StartOrder(token)[k]];
        AppendTwice(old(trace), order[..k], [order[k]]);
        match ReplyAt(replies, k) {
          case Err(reason) =>
            assert FirstFailure(replies, 11) == k;
            return Rejected(reason);
          case NoAnswer =>
            assert FirstFailure(replies, 11) == k;
            return Pending;
          case Ok(value) =>
            if k == CPaaSStep {
              token := value;
            }
        }
        k := k + 1;
      }
      state := Started;
      res := Resolved(());
    }

    /** stop: the modules stop in order, each after the previous one succeeded; the first failure rejects. */
    method Stop(replies: seq<Reply<()>>) returns (res: Settled<(), string>)
      modifies this`trace
      ensures trace == old(trace) + Attempted(StopOrder(), replies)
      ensures res == Outcome(replies, |StopOrder()|)
    {
      var order := StopOrder();
      var k := 0;
      while k < |order|
        invariant 0 <= k <= |order|
        invariant forall j :: 0 <= j < k ==> ReplyAt(replies, j).Ok?
        invariant trace == old(trace) + order[..k]
      {
        PrefixGrows(order, k);
        trace := trace + [order[k]];
        AppendTwice(old(trace), order[..k], [order[k]]);
        match ReplyAt(replies, k) {
          case Err(reason) =>
            assert FirstFailure(replies, |order|) == k;
            return Rejected(reason);
          case NoAnswer =>
            assert FirstFailure(replies, |order|) == k;
            return Pending;
          case Ok(_) =>
        }
        k := k + 1;
      }
      res := Resolved(());
    }

    /**
     * _retrieveInformation: rosters, bubbles, initial presence, carbon, then the bots,
     * each after the previous one succeeded; `_botsjid` is set from the bots' answer.
     */
    method RetrieveInformation(steps: seq<Reply<()>>, bots: Reply<Option<seq<Bot>>>) returns (res: Settled<(), string>)
      modifies this`trace, this`botsJids
      ensures var r := Retrieval(steps, bots);
        && res == r.result
        && trace == old(trace) + r.calls
        && botsJids == (if r.botsJids.Some? then r.botsJids.value else old(botsJids))
    {
      var order := RetrieveOrder();
      var k := 0;
      while k < 4
        invariant 0 <= k <= 4
        invariant forall j :: 0 <= j < k ==> ReplyAt(steps, j).Ok?
        invariant trace == old(trace) + order[..k]
        invariant botsJids == old(botsJids)
      {
        PrefixGrows(order, k);
        trace := trace + [order[k]];
        AppendTwice(old(trace), order[..k], [order[k]]);
        match ReplyAt(steps, k) {
          case Err(reason) =>
            assert FirstFailure(steps, 4) == k;
            return Rejected(reason);
          case NoAnswer =>
            assert FirstFailure(steps, 4) == k;
            return Pending;
          case Ok(_) =>
        }
        k := k + 1;
      }
      assert FirstFailure(steps, 4) == 4;
      trace := trace + [GetBots];
      assert trace == old(trace) + order;
      match bots {
        case Ok(list) =>
          botsJids := BotJids(list);
          res := Resolved(());
        case Err(reason) =>
          res := Rejected(reason);
        case NoAnswer =>
          res := Pending;
      }
    }

    /**
     * _tokenSurvey: nothing in CLI mode. Otherwise a fresh pair of handlers is
     * registered and the REST token survey starts.
     */
    method TokenSurvey()
      requires Valid()
      modifies this`listeners, this`surveys, this`trace
      ensures Valid()
      ensures useCLIMode ==> listeners == old(listeners) && surveys == old(surveys) && trace == old(trace)
      ensures !useCLIMode ==>
        && listeners == old(listeners) + Pair(old(surveys))
        && |listeners| == |old(listeners)| + 2
        && surveys == old(surveys) + 1
        && trace == old(trace) + [StartTokenSurvey]
    {
      if useCLIMode {
        return;
      }
      assert OnTokenRenewed(surveys) !in listeners && OnTokenExpired(surveys) !in listeners;
      listeners := listeners + Pair(surveys);
      surveys := surveys + 1;
      trace := trace + [StartTokenSurvey];
    }

    /** The renewal handler of survey `survey`: the REST token survey starts again. */
    method TokenRenewed(survey: nat)
      requires OnTokenRenewed(survey) in listeners
      modifies this`trace
      ensures trace == old(trace) + [StartTokenSurvey]
    {
      trace := trace + [StartTokenSurvey];
    }

    /**
     * The expiry handler of survey `survey`: both handlers of that survey are removed,
     * then a sign-in is requested. Other surveys' handlers stay.
     */
    method TokenExpired(survey: nat)
      requires Valid() && OnTokenExpired(survey) in listeners
      modifies this`listeners, this`trace
      ensures Valid()
      ensures listeners == old(listeners) - Pair(survey)
      ensures |listeners| == |old(listeners)| - 2
      ensures trace == old(trace) + [EmitSigninRequired]
    {
      assert Pair(survey) <= listeners;
      listeners := listeners - Pair(survey);
      trace := trace + [EmitSigninRequired];
    }

    /**
     * signin(forceStopXMPP): signs in REST then XMPP (`_signin`); a failure of either
     * rejects with no state change. Then the token survey is armed and the state
     * becomes CONNECTED. In CLI mode the promise resolves with no value and the
     * state becomes READY; otherwise information is retrieved first and only its success
     * leads to READY.
     */
    method Signin(forceStopXMPP: bool, restSignin: Reply<Session>, xmppSignin: Reply<()>,
                  steps: seq<Reply<()>>, bots: Reply<Option<seq<Bot>>>) returns (res: Settled<Option<string>, string>)
      requires Valid()
      modifies this`state, this`trace, this`botsJids, this`listeners, this`surveys
      ensures Valid()
      ensures var calls := (if forceStopXMPP then [StopPart(Xmpp)] else []) + [RestSignin];
        !restSignin.Ok? ==>
          && res == (if restSignin.Err? then Rejected(restSignin.reason) else Pending)
          && trace == old(trace) + calls
          && state == old(state) && listeners == old(listeners) && surveys == old(surveys) && botsJids == old(botsJids)
      ensures var calls := (if forceStopXMPP then [StopPart(Xmpp)] else []) + [RestSignin];
        restSignin.Ok? && !xmppSignin.Ok? ==>
          && res == (if xmppSignin.Err? then Rejected(xmppSignin.reason) else Pending)
          && trace == old(trace) + calls + [XmppSignin(restSignin.value.loggedInUser)]
          && state == old(state) && listeners == old(listeners) && surveys == old(surveys) && botsJids == old(botsJids)
      ensures var calls := (if forceStopXMPP then [StopPart(Xmpp)] else []) + [RestSignin];
        restSignin.Ok? && xmppSignin.Ok? ==>
          var signedIn := calls + [XmppSignin(restSignin.value.loggedInUser)];
          && listeners == (if useCLIMode then old(listeners) else old(listeners) + Pair(old(surveys)))
          && surveys == (if useCLIMode then old(surveys) else old(surveys) + 1)
          && (useCLIMode ==> res == Resolved(None) && state == Ready && trace == old(trace) + signedIn && botsJids == old(botsJids))
          && (!useCLIMode ==>
                var r := Retrieval(steps, bots);
                && trace == old(trace) + signedIn + [StartTokenSurvey] + r.calls
                && botsJids == (if r.botsJids.Some? then r.botsJids.value else old(botsJids))
                && (r.result.Resolved? ==> res == Resolved(Some(restSignin.value.json)) && state == Ready)
                && (r.result.Rejected? ==> res == Rejected(r.result.error) && state == Connected)
                && (r.result.Pending? ==> res == Pending && state == Connected))
    {
      var signedIn := SigninChannels(forceStopXMPP, restSignin, xmppSignin);
      match signedIn {
        case Rejected(reason) =>
          res := Rejected(reason);
        case Pending =>
          res := Pending;
        case Resolved(json) =>
          res := Connect(json, steps, bots);
      }
    }

    /**
     * _signin(forceStopXMPP): with the flag, XMPP is stopped first (without waiting for
     * it); the REST sign-in must succeed before XMPP signs in with the user it logged
     * in, and the promise resolves with the REST sign-in's JSON. Nothing else changes.
     */
    method SigninChannels(forceStopXMPP: bool, restSignin: Reply<Session>, xmppSignin: Reply<()>) returns (res: Settled<string, string>)
      modifies this`trace
      ensures var calls := (if forceStopXMPP then [StopPart(Xmpp)] else []) + [RestSignin];
        && (restSignin.Err? ==> res == Rejected(restSignin.reason) && trace == old(trace) + calls)
        && (restSignin.NoAnswer? ==> res == Pending && trace == old(trace) + calls)
        && (restSignin.Ok? ==>
              && trace == old(trace) + calls + [XmppSignin(restSignin.value.loggedInUser)]
              && res == (match xmppSignin
                         case Ok(_) => Resolved(restSignin.value.json)
                         case Err(reason) => Rejected(reason)
                         case NoAnswer => Pending))
    {
      if forceStopXMPP {
        trace := trace + [StopPart(Xmpp)];
      }
      trace := trace + [RestSignin];
      match restSignin {
        case Err(reason) =>
          res := Rejected(reason);
        case NoAnswer =>
          res := Pending;
        case Ok(session) =>
          trace := trace + [XmppSignin(session.loggedInUser)];
          match xmppSignin {
            case Ok(_) =>
              res := Resolved(session.json);
            case Err(reason) =>
              res := Rejected(reason);
            case NoAnswer =>
              res := Pending;
          }
      }
    }

    /**
     * What signin does once both sign-ins succeeded: arm the token survey, become
     * CONNECTED, then (outside CLI mode) retrieve information, and become READY.
     */
    method Connect(json: string, steps: seq<Reply<()>>, bots: Reply<Option<seq<Bot>>>) returns (res: Settled<Option<string>, string>)
      requires Valid()
      modifies this`state, this`trace, this`botsJids, this`listeners, this`surveys
      ensures Valid()
      ensures listeners == (if useCLIMode then old(listeners) else old(listeners) + Pair(old(surveys)))
      ensures surveys == (if useCLIMode then old(surveys) else old(surveys) + 1)
      ensures useCLIMode ==> res == Resolved(None) && state == Ready && trace == old(trace) && botsJids == old(botsJids)
      ensures !useCLIMode ==>
        var r := Retrieval(steps, bots);
        && trace == old(trace) + [StartTokenSurvey] + r.calls
        && botsJids == (if r.botsJids.Some? then r.botsJids.value else old(botsJids))
        && (r.result.Resolved? ==> res == Resolved(Some(json)) && state == Ready)
        && (r.result.Rejected? ==> res == Rejected(r.result.error) && state == Connected)
        && (r.result.Pending? ==> res == Pending && state == Connected)
    {
      TokenSurvey();
      state := Connected;
      if useCLIMode {
        state := Ready;
        res := Resolved(None);
      } else {
        var retrieved := RetrieveInformation(steps, bots);
        match retrieved {
          case Resolved(_) =>
            state := Ready;
            res := Resolved(Some(json));
          case Rejected(error) =>
            res := Rejected(error);
          case Pending =>
            res := Pending;
        }
      }
    }

    /** The `rainbow_signinrequired` handler: a forced sign-in, whose outcome nobody awaits. */
    method OnSigninRequired(restSignin: Reply<Session>, xmppSignin: Reply<()>,
                            steps: seq<Reply<()>>, bots: Reply<Option<seq<Bot>>>)
      requires Valid()
      modifies this`state, this`trace, this`botsJids, this`listeners, this`surveys
      ensures Valid()
      ensures |trace| > |old(trace)| && trace[|old(trace)|] == StopPart(Xmpp)
    {
      var _ := Signin(true, restSignin, xmppSignin, steps, bots);
    }

    /**
     * The `rainbow_xmppreconnected` handler: REST reconnects, the state becomes
     * CONNECTED, information is retrieved, and the state becomes READY; any failure in
     * that chain sets FAILED. A step that never answers leaves the state where it was.
     */
    method OnXmppReconnected(reconnect: Reply<()>, steps: seq<Reply<()>>, bots: Reply<Option<seq<Bot>>>)
      modifies this`state, this`trace, this`botsJids
      ensures reconnect.Err? ==> state == Failed && trace == old(trace) + [RestReconnect] && botsJids == old(botsJids)
      ensures reconnect.NoAnswer? ==> state == old(state) && trace == old(trace) + [RestReconnect] && botsJids == old(botsJids)
      ensures reconnect.Ok? ==>
        var r := Retrieval(steps, bots);
        && trace == old(trace) + [RestReconnect] + r.calls
        && botsJids == (if r.botsJids.Some? then r.botsJids.value else old(botsJids))
        && state == (match r.result case Resolved(_) => Ready case Rejected(_) => Failed case Pending => Connected)
    {
      trace := trace + [RestReconnect];
      match reconnect {
        case Err(_) =>
          state := Failed;
        case NoAnswer =>
        case Ok(_) =>
          state := Connected;
          var retrieved := RetrieveInformation(steps, bots);
          match retrieved {
            case Resolved(_) =>
              state := Ready;
            case Rejected(_) =>
              state := Failed;
            case Pending =>
          }
      }
    }

    /** The `rainbow_xmppreconnectingattempt` handler. */
    method OnXmppReconnectingAttempt()
      modifies this`state
      ensures state == Reconnecting
    {
      state := Reconnecting;
    }

    /** The `rainbow_xmppdisconnect` handler. */
    method OnXmppDisconnect()
      modifies this`state
      ensures state == Disconnected
    {
      state := Disconnected;
    }
  }
}
