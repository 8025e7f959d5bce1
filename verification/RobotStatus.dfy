/**
  The login and game status of a task robot (`RobotProcess`, `RecvVerifyAck`, `RecvInitGameAck` and
  the `Recv..` handlers of `RobotTask`).

  Message bodies arrive decoded; `None` stands for a body that does not parse.  Whether building a
  reply succeeds is a parameter of every step.
 */
module RobotStatus {
  import opened Options

  datatype Status =
    | Init | Verified | InitGame | WaitSignUp | CanSignUp | SignUped
    | QuickGame | Gaming | Exiting | KeepPlay | Other | Header

  /** A cost of signing up: can it be met, and is it already paid. */
  datatype Cost = Cost(enable: bool, signed: bool)

  datatype Message =
    | Unhandled                                          // no handler, or no readable envelope
    | VerifyAck(body: Option<VerifyBody>)
    | InitGameAck(result: Option<int>)
    | QuickStartAck(result: Option<int>)
    | SignUpCondAck(cond: Option<CondBody>)
    | SignUpAck(result: Option<int>)
    | KeepAck(keep: Option<KeepBody>)
    | SwitchScene(parsed: bool)
    | StartGame(parsed: bool)
    | DealCard(parsed: bool, seated: bool, myCall: bool)
    | CallScore(parsed: bool, myCall: bool)
    | SetLord(parsed: bool)
    | BaseCard(parsed: bool, myTurn: bool)
    | TakeOut(parsed: bool, myTurn: bool)
    | Trust(parsed: bool, mine: bool)
    | GameOver(parsed: bool)
    | GameResult
    | MatchOver
    | ReadyAck(parsed: bool)
    | CallScoreAck(parsed: bool)
    | TakeOutAck(parsed: bool)
    | TrustCancelAck(parsed: bool)
    | CancelSignUpAck(result: Option<int>)

  datatype VerifyBody = VerifyBody(result: int, hasGameName: bool)
  datatype CondBody = CondBody(result: int, hasLimit: bool, limitEnabled: bool, costs: seq<Cost>)
  datatype KeepBody = KeepBody(result: int, seated: bool)

  const SUCCESS := 0
  const NOT_ENOUGH_COIN := 506
  const ALREADY_SIGNED := 508

  /** The fields the handlers read and write; `isMatch` is fixed by the configuration. */
  datatype Robot = Robot(status: Status, needKeepPlay: bool, testKeepPlay: bool, isMatch: bool)

  /** What a handler leaves: the robot, whether it succeeded, and whether the connection is to go. */
  datatype Handled = Handled(robot: Robot, ok: bool, leaves: bool)

  function Ok(r: Robot): Handled { Handled(r, true, false) }
  function Bad(r: Robot): Handled { Handled(r, false, false) }
  function Leave(r: Robot): Handled { Handled(r, true, true) }

  /** A step that ends with building a reply. */
  function Reply(r: Robot, sendOk: bool): Handled { Handled(r, sendOk, false) }

  /** The first cost that can be met, or the list's length. */
  function FirstEnabled(costs: seq<Cost>): (i: nat)
    ensures i <= |costs| && (i < |costs| ==> costs[i].enable)
    ensures forall j :: 0 <= j < i ==> !costs[j].enable
  {
    if costs == [] then 0 else if costs[0].enable then 0 else 1 + FirstEnabled(costs[1..])
  }

  // ----- the handlers

  function OnVerifyAck(r: Robot, body: Option<VerifyBody>, sendOk: bool): Handled {
    if r.status != Init || body.None? then Bad(r)
    else if body.value.result != SUCCESS then Bad(r)
    else if !body.value.hasGameName && r.testKeepPlay then Leave(r)
    else Reply(r.(status := Verified, needKeepPlay := r.needKeepPlay || body.value.hasGameName), sendOk)
  }

  function OnInitGameAck(r: Robot, result: Option<int>, sendOk: bool): Handled {
    if r.status != Verified || result.None? || result.value != SUCCESS then Bad(r)
    else if r.needKeepPlay then Reply(r.(status := KeepPlay, needKeepPlay := false), sendOk)
    else Reply(r.(status := InitGame), sendOk)
  }

  function OnQuickStartAck(r: Robot, result: Option<int>): Handled {
    if r.status == Gaming then Ok(r)
    else if r.status != InitGame || result.None? then Bad(r)
    else if result.value == NOT_ENOUGH_COIN then Leave(r)
    else if result.value != 0 then Bad(r)
    else Ok(r.(status := QuickGame))
  }

  function OnSignUpCondAck(r: Robot, cond: Option<CondBody>, sendOk: bool): Handled {
    if r.status != InitGame || cond.None? || cond.value.result != SUCCESS then Bad(r)
    else if !cond.value.hasLimit then Reply(r.(status := CanSignUp), sendOk)
    else if !cond.value.limitEnabled then Bad(r)
    else
      var i := FirstEnabled(cond.value.costs);
      if i == |cond.value.costs| then Bad(r)
      else if cond.value.costs[i].signed then Ok(r.(status := SignUped))
      else Reply(r.(status := CanSignUp), sendOk)
  }

  function OnSignUpAck(r: Robot, result: Option<int>): Handled {
    if r.status == Gaming then Ok(r)
    else if r.status != CanSignUp || result.None? then Bad(r)
    else if result.value != 0 && result.value != ALREADY_SIGNED then Bad(r)
    else Ok(r.(status := SignUped))
  }

  function OnKeepAck(r: Robot, keep: Option<KeepBody>, sendOk: bool): Handled {
    if r.status != KeepPlay || keep.None? then Bad(r)
    else if keep.value.result != 0 then Bad(r.(status := Init))
    else if !keep.value.seated then Bad(r)
    else Reply(r.(status := Gaming), sendOk)
  }

  predicate MayEnterScene(s: Status) {
    s == SignUped || s == QuickGame || s == Gaming || s == KeepPlay || s == InitGame
  }

  function OnSwitchScene(r: Robot, parsed: bool, sendOk: bool): Handled {
    if !parsed || !MayEnterScene(r.status) then Bad(r) else Reply(r.(status := Gaming), sendOk)
  }

  /** Notifications outside a game are ignored; inside one they must parse, and may need a reply. */
  function OnNotify(r: Robot, parsed: bool, replies: bool, sendOk: bool): Handled {
    if r.status != Gaming then Ok(r)
    else if !parsed then Bad(r)
    else if replies then Reply(r, sendOk)
    else Ok(r)
  }

  /** Acknowledgements that make no sense outside a game. */
  function OnGameAck(r: Robot, parsed: bool): Handled {
    if r.status != Gaming || !parsed then Bad(r) else Ok(r)
  }

  function OnGameResult(r: Robot): Handled {
    if r.isMatch then Ok(r.(status := Gaming)) else Leave(r.(status := Init))
  }

  function Dispatch(r: Robot, m: Message, sendOk: bool): Handled {
    match m
    case Unhandled => Ok(r)
    case VerifyAck(body) => OnVerifyAck(r, body, sendOk)
    case InitGameAck(result) => OnInitGameAck(r, result, sendOk)
    case QuickStartAck(result) => OnQuickStartAck(r, result)
    case SignUpCondAck(cond) => OnSignUpCondAck(r, cond, sendOk)
    case SignUpAck(result) => OnSignUpAck(r, result)
    case KeepAck(keep) => OnKeepAck(r, keep, sendOk)
    case SwitchScene(parsed) => OnSwitchScene(r, parsed, sendOk)
    case StartGame(parsed) => OnGameAck(r, parsed)
    case DealCard(parsed, seated, myCall) => OnNotify(r, parsed && seated, myCall, sendOk)
    case CallScore(parsed, myCall) => OnNotify(r, parsed, myCall, sendOk)
    case SetLord(parsed) => OnNotify(r, parsed, false, sendOk)
    case BaseCard(parsed, myTurn) => OnNotify(r, parsed, myTurn, sendOk)
    case TakeOut(parsed, myTurn) => OnNotify(r, parsed, myTurn, sendOk)
    case Trust(parsed, mine) => OnNotify(r, parsed, mine, sendOk)
    case GameOver(parsed) => if parsed then Leave(r.(status := Init)) else Ok(r)
    case GameResult => OnGameResult(r)
    case MatchOver => Leave(r.(status := Init))
    case ReadyAck(parsed) => OnNotify(r, parsed, false, sendOk)
    case CallScoreAck(parsed) => OnGameAck(r, parsed)
    case TakeOutAck(parsed) => OnGameAck(r, parsed)
    case TrustCancelAck(parsed) => OnGameAck(r, parsed)
    case CancelSignUpAck(result) => if result.None? || result.value != 0 then Bad(r) else Ok(r)
  }

  /** One message through `RobotProcess`: a handler that fails resets the robot. */
  function Process(r: Robot, m: Message, sendOk: bool): Robot {
    var h := Dispatch(r, m, sendOk);
    if h.ok then h.robot else h.robot.(status := Init)
  }

  // ----- runs

  /** A robot receives a message, or starts over on a new connection. */
  datatype Event = Receive(m: Message, sendOk: bool) | Restart(testKeepPlay: bool)

  function Step(r: Robot, ev: Event): Robot {
    match ev
    case Receive(m, sendOk) => Process(r, m, sendOk)
    case Restart(test) => Robot(Init, false, test, r.isMatch)
  }

  /** What happened since the status was last `Init`. */
  datatype Past = Past(verified: bool, initialised: bool, resulted: bool)

  const CLEAR := Past(false, false, false)

  function Remember(past: Past, r: Robot, ev: Event): Past {
    if Step(r, ev).status == Init then CLEAR
    else match ev
      case Receive(VerifyAck(Some(body)), _) => if body.result == SUCCESS then past.(verified := true) else past
      case Receive(InitGameAck(Some(result)), _) =>
        if result == SUCCESS && past.verified then past.(initialised := true) else past
      case Receive(GameResult, _) => past.(resulted := true)
      case _ => past
  }

  function Run(r: Robot, evs: seq<Event>): Robot
    decreases |evs|
  {
    if evs == [] then r else Step(Run(r, evs[..|evs| - 1]), evs[|evs| - 1])
  }

  function History(r: Robot, evs: seq<Event>): Past
    decreases |evs|
  {
    if evs == [] then CLEAR
    else Remember(History(r, evs[..|evs| - 1]), Run(r, evs[..|evs| - 1]), evs[|evs| - 1])
  }

  // ----- what is remembered, told from the run

  /** From event `k` on the status was never `Init`. */
  ghost predicate SinceReset(r: Robot, evs: seq<Event>, k: int) {
    0 <= k < |evs| && forall j :: k < j <= |evs| ==> Run(r, evs[..j]).status != Init
  }

  ghost predicate Succeeds(ev: Event, login: bool) {
    && ev.Receive?
    && if login then ev.m.VerifyAck? && ev.m.body.Some? && ev.m.body.value.result == SUCCESS
       else ev.m.InitGameAck? && ev.m.result == Some(SUCCESS)
  }

  ghost predicate LoggedIn(r: Robot, evs: seq<Event>) {
    exists k :: 0 <= k < |evs| && SinceReset(r, evs, k) && Succeeds(evs[k], true)
  }

  ghost predicate InitialisedThen(r: Robot, evs: seq<Event>) {
    exists k :: 0 <= k < |evs| && SinceReset(r, evs, k) && Succeeds(evs[k], false) && LoggedIn(r, evs[..k])
  }

  ghost predicate GotResult(r: Robot, evs: seq<Event>) {
    exists k :: 0 <= k < |evs| && SinceReset(r, evs, k) && evs[k].Receive? && evs[k].m.GameResult?
  }

  lemma SinceResetStep(r: Robot, evs: seq<Event>, k: int)
    requires evs != []
    ensures var n := |evs| - 1;
      SinceReset(r, evs, k) <==> Run(r, evs).status != Init && (k == n || SinceReset(r, evs[..n], k))
  {
    var before := evs[..|evs| - 1];
    assert evs[..|evs|] == evs;
    assert forall j :: 0 <= j < |evs| ==> before[..j] == evs[..j];
    if SinceReset(r, evs, k) && k < |evs| - 1 {
      forall j | k < j <= |before|
        ensures Run(r, before[..j]).status != Init
      {
        assert Run(r, evs[..j]).status != Init;
      }
    }
  }

  lemma LoggedInStep(r: Robot, evs: seq<Event>)
    requires evs != []
    ensures var n := |evs| - 1;
      LoggedIn(r, evs) <==> Run(r, evs).status != Init && (Succeeds(evs[n], true) || LoggedIn(r, evs[..n]))
  {
    hide SinceReset, Succeeds, Run;
    var n := |evs| - 1;
    var before := evs[..n];
    forall k { SinceResetStep(r, evs, k); }
    assert SinceReset(r, evs, n) <==> Run(r, evs).status != Init;
    if LoggedIn(r, before) && Run(r, evs).status != Init {
      var k :| 0 <= k < n && SinceReset(r, before, k) && Succeeds(before[k], true);
      assert SinceReset(r, evs, k) && Succeeds(evs[k], true);
    }
  }

  lemma InitialisedStep(r: Robot, evs: seq<Event>)
    requires evs != []
    ensures var n := |evs| - 1;
      InitialisedThen(r, evs) <==>
        && Run(r, evs).status != Init
        && ((Succeeds(evs[n], false) && LoggedIn(r, evs[..n])) || InitialisedThen(r, evs[..n]))
  {
    hide SinceReset, Succeeds, Run, LoggedIn;
    var n := |evs| - 1;
    var before := evs[..n];
    assert forall k :: 0 <= k < n ==> before[..k] == evs[..k];
    forall k { SinceResetStep(r, evs, k); }
    assert SinceReset(r, evs, n) <==> Run(r, evs).status != Init;
    if InitialisedThen(r, before) && Run(r, evs).status != Init {
      var k :| 0 <= k < n && SinceReset(r, before, k) && Succeeds(before[k], false) && LoggedIn(r, before[..k]);
      assert SinceReset(r, evs, k) && Succeeds(evs[k], false) && LoggedIn(r, evs[..k]);
    }
  }

  lemma GotResultStep(r: Robot, evs: seq<Event>)
    requires evs != []
    ensures var n := |evs| - 1;
      GotResult(r, evs) <==>
        Run(r, evs).status != Init && ((evs[n].Receive? && evs[n].m.GameResult?) || GotResult(r, evs[..n]))
  {
    hide SinceReset, Run;
    var n := |evs| - 1;
    var before := evs[..n];
    forall k { SinceResetStep(r, evs, k); }
    assert SinceReset(r, evs, n) <==> Run(r, evs).status != Init;
    if GotResult(r, before) && Run(r, evs).status != Init {
      var k :| 0 <= k < n && SinceReset(r, before, k) && before[k].Receive? && before[k].m.GameResult?;
      assert SinceReset(r, evs, k) && evs[k].Receive? && evs[k].m.GameResult?;
    }
  }

  /**
    Verified means a login that succeeded since the status was last `Init`, initialised means an
    initialisation that succeeded since then after such a login, and a result one that came since then.
   */
  lemma {:induction false} HistoryIs(r: Robot, evs: seq<Event>)
    ensures var past := History(r, evs);
      && (past.verified <==> LoggedIn(r, evs)) && (past.initialised <==> InitialisedThen(r, evs))
      && (past.resulted <==> GotResult(r, evs))
    decreases |evs|
  {
    hide Step, SinceReset;
    if evs == [] {
      forall k { NothingSince(r, k); }
    } else {
      HistoryIs(r, evs[..|evs| - 1]);
      LoggedInStep(r, evs);
      InitialisedStep(r, evs);
      GotResultStep(r, evs);
    }
  }

  lemma NothingSince(r: Robot, k: int)
    ensures !SinceReset(r, [], k)
  {
  }

  /** Event `k` of a run is a successful acknowledgement of the login that names a game left behind. */
  ghost predicate NamesGame(r: Robot, evs: seq<Event>, k: int) {
    && 0 <= k < |evs| && Run(r, evs[..k]).status == Init
    && evs[k].Receive? && evs[k].m.VerifyAck? && evs[k].m.body.Some?
    && evs[k].m.body.value.result == SUCCESS && evs[k].m.body.value.hasGameName
  }

  /** Event `k` starts over, or initialises the robot and so uses up what was named. */
  ghost predicate UsesGame(r: Robot, evs: seq<Event>, k: int) {
    && 0 <= k < |evs|
    && (evs[k].Restart?
        || (Run(r, evs[..k]).status == Verified && evs[k].m.InitGameAck? && evs[k].m.result == Some(SUCCESS)))
  }

  /** A game was named and not used up since. */
  ghost predicate GamePending(r: Robot, evs: seq<Event>) {
    exists k :: NamesGame(r, evs, k) && forall j :: k < j < |evs| ==> !UsesGame(r, evs, j)
  }

  lemma PrefixEvents(r: Robot, evs: seq<Event>, k: int)
    requires evs != [] && 0 <= k < |evs| - 1
    ensures var before := evs[..|evs| - 1];
      (NamesGame(r, evs, k) <==> NamesGame(r, before, k)) && (UsesGame(r, evs, k) <==> UsesGame(r, before, k))
  {
    assert evs[..|evs| - 1][..k] == evs[..k];
  }

  lemma PendingStep(r: Robot, evs: seq<Event>)
    requires evs != []
    ensures var n := |evs| - 1;
      GamePending(r, evs) <==>
        NamesGame(r, evs, n) || (GamePending(r, evs[..n]) && !UsesGame(r, evs, n))
  {
    hide NamesGame, UsesGame;
    var n := |evs| - 1;
    var before := evs[..n];
    forall k | 0 <= k < n
      ensures NamesGame(r, evs, k) <==> NamesGame(r, before, k)
      ensures UsesGame(r, evs, k) <==> UsesGame(r, before, k)
    {
      PrefixEvents(r, evs, k);
    }
    EventsInRange(r, evs);
    EventsInRange(r, before);
    if GamePending(r, evs) {
      var k :| NamesGame(r, evs, k) && forall j :: k < j < |evs| ==> !UsesGame(r, evs, j);
      if k < n {
        assert NamesGame(r, before, k);
      }
    }
    if GamePending(r, before) && !UsesGame(r, evs, n) {
      var k :| NamesGame(r, before, k) && forall j :: k < j < |before| ==> !UsesGame(r, before, j);
      assert NamesGame(r, evs, k);
    }
  }

  lemma EventsInRange(r: Robot, evs: seq<Event>)
    ensures forall k :: NamesGame(r, evs, k) || UsesGame(r, evs, k) ==> 0 <= k < |evs|
  {
  }

  /** No message but these two touches the memory of a game left behind. */
  lemma OthersForget(r: Robot, m: Message, sendOk: bool)
    requires !m.VerifyAck? && !m.InitGameAck?
    ensures Process(r, m, sendOk).needKeepPlay == r.needKeepPlay
  {
  }

  lemma LoginRemembers(r: Robot, body: Option<VerifyBody>, sendOk: bool)
    ensures Process(r, VerifyAck(body), sendOk).needKeepPlay <==>
      r.needKeepPlay || (r.status == Init && body.Some? && body.value.result == SUCCESS && body.value.hasGameName)
  {
  }

  lemma InitialisingUses(r: Robot, result: Option<int>, sendOk: bool)
    ensures Process(r, InitGameAck(result), sendOk).needKeepPlay <==>
      r.needKeepPlay && !(r.status == Verified && result == Some(SUCCESS))
  {
  }

  /** What one event does to the memory of a game left behind. */
  lemma StepRemembersGame(r: Robot, evs: seq<Event>)
    requires evs != []
    ensures var n := |evs| - 1;
      Run(r, evs).needKeepPlay <==>
        NamesGame(r, evs, n) || (Run(r, evs[..n]).needKeepPlay && !UsesGame(r, evs, n))
  {
    hide Process;
    var ev, before := evs[|evs| - 1], Run(r, evs[..|evs| - 1]);
    if ev.Receive? {
      match ev.m
      case VerifyAck(body) => LoginRemembers(before, body, ev.sendOk);
      case InitGameAck(result) => InitialisingUses(before, result, ev.sendOk);
      case _ => OthersForget(before, ev.m, ev.sendOk);
    }
  }

  /** Over every run: a robot remembers a game left behind iff one was named and not used up since. */
  lemma {:induction false} GameIsRemembered(isMatch: bool, test: bool, evs: seq<Event>)
    ensures var r := Robot(Init, false, test, isMatch);
      Run(r, evs).needKeepPlay <==> GamePending(r, evs)
    decreases |evs|
  {
    hide Step, NamesGame, UsesGame;
    var r := Robot(Init, false, test, isMatch);
    if evs == [] {
      EventsInRange(r, evs);
    } else {
      GameIsRemembered(isMatch, test, evs[..|evs| - 1]);
      StepRemembersGame(r, evs);
      PendingStep(r, evs);
    }
  }

  /** So initialising leads to picking a game up iff the login named one that was not used up since. */
  lemma ResumesNamedGame(isMatch: bool, test: bool, evs: seq<Event>)
    requires Run(Robot(Init, false, test, isMatch), evs).status == Verified
    ensures var r := Robot(Init, false, test, isMatch);
      Process(Run(r, evs), InitGameAck(Some(SUCCESS)), true).status
        == if GamePending(r, evs) then KeepPlay else InitGame
  {
    GameIsRemembered(isMatch, test, evs);
  }

  /** How far a robot has come; picking up a broken game counts as before playing. */
  function Rank(s: Status): int {
    match s
    case Init => 0
    case Verified => 1
    case InitGame => 2
    case CanSignUp | KeepPlay => 3
    case SignUped | QuickGame => 4
    case Gaming => 5
    case WaitSignUp | Exiting | Other | Header => 6
  }

  /** Messages that look for a game, and lead into it. */
  predicate InLobby(m: Message) {
    m.VerifyAck? || m.InitGameAck? || m.SignUpCondAck? || m.KeepAck? || m.SwitchScene? || m.QuickStartAck?
    || m.SignUpAck? || m.CancelSignUpAck?
  }

  /** All other messages leave the status, reset it, or - a result in a match room - lead into a game. */
  lemma GameMessages(r: Robot, m: Message, sendOk: bool)
    requires !InLobby(m)
    ensures Process(r, m, sendOk).isMatch == r.isMatch
    ensures Process(r, m, sendOk).status in {Init, r.status, Gaming}
    ensures Process(r, m, sendOk).status == Gaming && r.status != Gaming ==> m.GameResult? && r.isMatch
    ensures m.GameResult? ==> Process(r, m, sendOk).status == if r.isMatch then Gaming else Init
  {
  }

  /** Every message raises the rank, keeps the status, or resets it. */
  lemma MessageRaisesKeepsOrResets(r: Robot, m: Message, sendOk: bool)
    ensures Rank(r.status) <= 5 ==>
      var s := Process(r, m, sendOk).status;
      s == Init || s == r.status || Rank(r.status) < Rank(s)
  {
  }

  // ----- exactly what moves a robot on

  ghost predicate LogsIn(r: Robot, m: Message) {
    && r.status == Init && m.VerifyAck? && m.body.Some? && m.body.value.result == SUCCESS
    && (m.body.value.hasGameName || !r.testKeepPlay)
  }

  ghost predicate Initialises(r: Robot, m: Message) {
    r.status == Verified && m.InitGameAck? && m.result == Some(SUCCESS)
  }

  /** The conditions for signing up allow it: there are none, or the first cost that can be met is `signed` or not. */
  ghost predicate MaySignUp(r: Robot, m: Message, signed: bool) {
    && r.status == InitGame && m.SignUpCondAck? && m.cond.Some? && m.cond.value.result == SUCCESS
    && if m.cond.value.hasLimit then
         && m.cond.value.limitEnabled
         && exists i :: FirstMet(m.cond.value.costs, i) && m.cond.value.costs[i].signed == signed
       else !signed
  }

  ghost predicate PicksUp(r: Robot, m: Message) {
    r.status == KeepPlay && m.KeepAck? && m.keep.Some? && m.keep.value.result == 0 && m.keep.value.seated
  }

  ghost predicate EntersScene(r: Robot, m: Message) {
    m.SwitchScene? && m.parsed && r.status in {SignUped, QuickGame, KeepPlay, InitGame}
  }

  /** Logging in and initialising: when, and to which status. */
  lemma LoginMovesIff(r: Robot, m: Message, sendOk: bool)
    ensures var s := Process(r, m, sendOk).status;
      && (s == Verified && r.status != Verified <==> LogsIn(r, m) && sendOk)
      && (s == InitGame && r.status != InitGame <==> Initialises(r, m) && !r.needKeepPlay && sendOk)
      && (s == KeepPlay && r.status != KeepPlay <==> Initialises(r, m) && r.needKeepPlay && sendOk)
  {
  }

  /** Finding a game: when, and to which status. */
  lemma SignUpMovesIff(r: Robot, m: Message, sendOk: bool)
    ensures var s := Process(r, m, sendOk).status;
      && (s == QuickGame && r.status != QuickGame <==>
            r.status == InitGame && m.QuickStartAck? && m.result == Some(0))
      && (s == CanSignUp && r.status != CanSignUp <==> MaySignUp(r, m, false) && sendOk)
      && (s == SignUped && r.status != SignUped <==>
            || MaySignUp(r, m, true)
            || (r.status == CanSignUp && m.SignUpAck? && m.result in {Some(0), Some(ALREADY_SIGNED)}))
  {
    if m.SignUpCondAck? && m.cond.Some? {
      FirstMetIs(m.cond.value.costs);
    }
  }

  lemma FirstMetIs(costs: seq<Cost>)
    ensures forall i :: FirstMet(costs, i) <==> i == FirstEnabled(costs) && i < |costs|
  {
  }

  /** Into a game: by picking one up, by entering the scene, or by a result in a match room. */
  lemma GameMovesIff(r: Robot, m: Message, sendOk: bool)
    ensures var s := Process(r, m, sendOk).status;
      s == Gaming && r.status != Gaming <==>
        || (PicksUp(r, m) && sendOk) || (EntersScene(r, m) && sendOk)
        || (m.GameResult? && r.isMatch && r.status != Gaming)
  {
    if InLobby(m) {
      LobbyGaming(r, m, sendOk);
    } else {
      GameMessages(r, m, sendOk);
    }
  }

  lemma LobbyGaming(r: Robot, m: Message, sendOk: bool)
    requires InLobby(m)
    ensures Process(r, m, sendOk).status == Gaming && r.status != Gaming <==>
      (PicksUp(r, m) && sendOk) || (EntersScene(r, m) && sendOk)
  {
  }

  /** The messages that look for a game but move nothing: these few are passed over, all others reset. */
  lemma LobbyStaysIff(r: Robot, m: Message, sendOk: bool)
    requires InLobby(m) && r.status != Init
    ensures Process(r, m, sendOk).status == r.status <==>
      || (m.QuickStartAck? && (r.status == Gaming || (r.status == InitGame && m.result == Some(NOT_ENOUGH_COIN))))
      || (m.SignUpAck? && r.status == Gaming)
      || (m.SwitchScene? && m.parsed && r.status == Gaming && sendOk)
      || (m.CancelSignUpAck? && m.result == Some(0))
  {
  }

  /** Does a notification of a game parse, and does it ask for a reply. */
  function Notified(m: Message): Option<(bool, bool)> {
    match m
    case DealCard(parsed, seated, myCall) => Some((parsed && seated, myCall))
    case CallScore(parsed, myCall) => Some((parsed, myCall))
    case SetLord(parsed) => Some((parsed, false))
    case BaseCard(parsed, myTurn) => Some((parsed, myTurn))
    case TakeOut(parsed, myTurn) => Some((parsed, myTurn))
    case Trust(parsed, mine) => Some((parsed, mine))
    case ReadyAck(parsed) => Some((parsed, false))
    case _ => None
  }

  predicate IsGameAck(m: Message) {
    m.StartGame? || m.CallScoreAck? || m.TakeOutAck? || m.TrustCancelAck?
  }

  /**
    The messages of a game: notifications are ignored outside a game, and inside reset a robot that
    cannot read or answer them; acknowledgements reset it unless it is in a game and reads them.
   */
  lemma GameMessageOutcome(r: Robot, m: Message, sendOk: bool)
    ensures var s := Process(r, m, sendOk).status;
      && (Notified(m).Some? ==> var (parsed, asks) := Notified(m).value;
            s == if r.status == Gaming && (!parsed || (asks && !sendOk)) then Init else r.status)
      && (IsGameAck(m) ==> s == if r.status == Gaming && m.parsed then r.status else Init)
      && (m.CancelSignUpAck? ==> s == if m.result == Some(0) then r.status else Init)
      && (m.MatchOver? || (m.GameOver? && m.parsed) || (m.GameResult? && !r.isMatch) ==> s == Init)
      && (m.Unhandled? || (m.GameOver? && !m.parsed) ==> s == r.status)
  {
  }

  /** A handler sends the robot away iff its game or match is over, it lacks coins, or it only tests resuming. */
  lemma LeavesIff(r: Robot, m: Message, sendOk: bool)
    ensures Dispatch(r, m, sendOk).leaves <==>
      || m.MatchOver? || (m.GameOver? && m.parsed) || (m.GameResult? && !r.isMatch)
      || (r.status == InitGame && m.QuickStartAck? && m.result == Some(NOT_ENOUGH_COIN))
      || (r.status == Init && m.VerifyAck? && m.body.Some? && m.body.value.result == SUCCESS
          && !m.body.value.hasGameName && r.testKeepPlay)
  {
  }

  /** The position of a status in the source's enumeration. */
  function Ordinal(s: Status): int {
    match s
    case Init => 0
    case Verified => 1
    case InitGame => 2
    case WaitSignUp => 3
    case CanSignUp => 4
    case SignUped => 5
    case QuickGame => 6
    case Gaming => 7
    case Exiting => 8
    case KeepPlay => 9
    case Other => 10
    case Header => 11
  }

  /** By position in the enumeration only one move goes down: resuming a broken game. */
  lemma OnlyResumingLowersOrdinal(r: Robot, m: Message, sendOk: bool)
    requires Rank(r.status) <= 5
    ensures var s := Process(r, m, sendOk).status;
      Ordinal(s) < Ordinal(r.status) && s != Init <==> r.status == KeepPlay && s == Gaming
  {
    if InLobby(m) {
      LobbyOrdinal(r, m, sendOk);
    } else {
      hide Process;
      GameMessages(r, m, sendOk);
    }
  }

  lemma LobbyOrdinal(r: Robot, m: Message, sendOk: bool)
    requires InLobby(m) && Rank(r.status) <= 5
    ensures var s := Process(r, m, sendOk).status;
      Ordinal(s) < Ordinal(r.status) && s != Init ==> r.status == KeepPlay && s == Gaming
  {
  }

  /** The invariant: each status is only reached past the acknowledgements that lead to it. */
  ghost predicate Earned(r: Robot, past: Past) {
    && Rank(r.status) <= 5
    && (r.status != Init ==> past.verified || past.resulted)
    && (r.status != Init && r.status != Verified ==> (past.verified && past.initialised) || past.resulted)
    && (!r.isMatch ==> !past.resulted)
  }

  /** The way out of `Init` and `Verified` leads through an acknowledgement, or a result in a match. */
  lemma WaysIn(r: Robot, m: Message, sendOk: bool)
    ensures Process(r, m, sendOk).isMatch == r.isMatch
    ensures m.GameResult? && !r.isMatch ==> Process(r, m, sendOk).status == Init
    ensures var s := Process(r, m, sendOk).status;
      || s == Init || s == r.status
      || (s == Gaming && m.GameResult? && r.isMatch)
      || (r.status == Init && s == Verified && m.VerifyAck? && m.body.Some? && m.body.value.result == SUCCESS)
      || (r.status == Verified && Rank(s) <= 3 && m.InitGameAck? && m.result == Some(SUCCESS))
      || (r.status != Init && r.status != Verified && 3 <= Rank(s) <= 5)
  {
    if InLobby(m) {
      LobbyWaysIn(r, m, sendOk);
    } else {
      hide Process;
      GameMessages(r, m, sendOk);
    }
  }

  lemma LobbyWaysIn(r: Robot, m: Message, sendOk: bool)
    requires InLobby(m)
    ensures Process(r, m, sendOk).isMatch == r.isMatch
    ensures var s := Process(r, m, sendOk).status;
      || s == Init || s == r.status
      || (r.status == Init && s == Verified && m.VerifyAck? && m.body.Some? && m.body.value.result == SUCCESS)
      || (r.status == Verified && Rank(s) <= 3 && m.InitGameAck? && m.result == Some(SUCCESS))
      || (r.status != Init && r.status != Verified && 3 <= Rank(s) <= 5)
  {
  }

  lemma StepEarns(r: Robot, past: Past, ev: Event)
    requires Earned(r, past)
    ensures Earned(Step(r, ev), Remember(past, r, ev)) && Step(r, ev).isMatch == r.isMatch
  {
    hide Process;
    if ev.Receive? {
      WaysIn(r, ev.m, ev.sendOk);
    }
  }

  lemma {:induction false} RunEarns(r: Robot, evs: seq<Event>)
    requires r.status == Init
    ensures Earned(Run(r, evs), History(r, evs)) && Run(r, evs).isMatch == r.isMatch
    decreases |evs|
  {
    if evs != [] {
      RunEarns(r, evs[..|evs| - 1]);
      StepEarns(Run(r, evs[..|evs| - 1]), History(r, evs[..|evs| - 1]), evs[|evs| - 1]);
    }
  }

  /**
    In a room that is no match room, over every run of messages and restarts, a robot that is in a
    game has been verified and then initialised since its status was last reset.
   */
  lemma GamingWasEarned(r: Robot, evs: seq<Event>)
    requires r.status == Init && !r.isMatch
    ensures Run(r, evs).status == Gaming ==> History(r, evs).verified && History(r, evs).initialised
  {
    RunEarns(r, evs);
  }

  /** In a match room a game result alone puts a robot that never logged in into a game. */
  lemma MatchResultSkipsLogin(r: Robot)
    requires r.status == Init && r.isMatch
    ensures var evs := [Receive(GameResult, true)];
      && Run(r, evs).status == Gaming
      && !History(r, evs).verified && !History(r, evs).initialised
  {
    var evs := [Receive(GameResult, true)];
    assert evs[..0] == [];
    assert Run(r, evs[..0]) == r;
  }

  /** And that is the only way: in any room, an unearned game means a result came since the reset. */
  lemma UnearnedGameHadResult(r: Robot, evs: seq<Event>)
    requires r.status == Init
    ensures Run(r, evs).status == Gaming && !(History(r, evs).verified && History(r, evs).initialised) ==>
      r.isMatch && History(r, evs).resulted
  {
    RunEarns(r, evs);
  }

  /** Over all runs a game is always earned iff the room is no match room. */
  lemma GamesAreEarnedIff(r: Robot)
    requires r.status == Init
    ensures (forall evs: seq<Event> :: Run(r, evs).status == Gaming ==>
               History(r, evs).verified && History(r, evs).initialised)
      <==> !r.isMatch
  {
    if r.isMatch {
      MatchResultSkipsLogin(r);
    } else {
      forall evs: seq<Event> | Run(r, evs).status == Gaming
        ensures History(r, evs).verified && History(r, evs).initialised
      {
        GamingWasEarned(r, evs);
      }
    }
  }

  /** A robot whose status is reset loses its connection. */
  lemma StaysOrLeaves(r: Robot, m: Message, sendOk: bool)
    ensures var h := Dispatch(r, m, sendOk);
      h.ok && !h.leaves && h.robot.status == Init ==> r.status == Init
  {
  }

  /** The cost loop. */
  method FindCost(costs: seq<Cost>) returns (index: nat)
    ensures index == FirstEnabled(costs)
  {
    index := 0;
    while index < |costs| && !costs[index].enable
      invariant index <= |costs|
      invariant index + FirstEnabled(costs[index..]) == FirstEnabled(costs)
    {
      assert costs[index..][1..] == costs[index + 1..];
      index := index + 1;
    }
  }

  /** Cost `i` is the first that can be met. */
  ghost predicate FirstMet(costs: seq<Cost>, i: int) {
    0 <= i < |costs| && costs[i].enable && forall j :: 0 <= j < i ==> !costs[j].enable
  }

  // ----- the robot as the event loop drives it

  /** `past` records what happened since the status was last `Init`. */
  class RobotTask {
    var status: Status
    var needKeepPlay: bool
    var isTestNeedKeepPlay: bool
    const isMatch: bool
    ghost var past: Past

    constructor (isMatch: bool)
      ensures Valid() && State() == Robot(Init, false, false, isMatch)
    {
      status, needKeepPlay, isTestNeedKeepPlay := Init, false, false;
      this.isMatch := isMatch;
      past := CLEAR;
    }

    function State(): Robot
      reads `status, `needKeepPlay, `isTestNeedKeepPlay
    {
      Robot(status, needKeepPlay, isTestNeedKeepPlay, isMatch)
    }

    /** Each status is only held past the acknowledgements that lead to it. */
    ghost predicate Valid()
      reads this
    {
      Earned(State(), past)
    }

    /** A new connection: whatever was earned is gone. */
    method RobotInit()
      requires Valid()
      modifies this
      ensures Valid() && status == Init && past == CLEAR
      ensures State() == Step(old(State()), Restart(false))
    {
      status, needKeepPlay, isTestNeedKeepPlay := Init, false, false;
      past := CLEAR;
    }

    method SetNeedTestKeepPlay(test: bool)
      requires Valid()
      modifies `isTestNeedKeepPlay
      ensures Valid() && State() == old(State()).(testKeepPlay := test)
    {
      isTestNeedKeepPlay := test;
    }

    /** A robot is put to work on a new connection, perhaps only to test resuming a game. */
    method PutToWork(isTestKeepPlay: bool)
      requires Valid()
      modifies this
      ensures Valid() && status == Init && past == CLEAR
      ensures State() == Step(old(State()), Restart(isTestKeepPlay))
    {
      RobotInit();
      if isTestKeepPlay {
        SetNeedTestKeepPlay(true);
      }
    }

    /** Leaves `Init` iff told of success, and not if there only to test resuming a game it has not. */
    method RecvVerifyAck(body: Option<VerifyBody>, sendOk: bool) returns (ok: bool, leaves: bool)
      modifies `status, `needKeepPlay
      ensures status != old(status) <==>
        && old(status) == Init && body.Some? && body.value.result == SUCCESS
        && (body.value.hasGameName || !isTestNeedKeepPlay)
      ensures status != old(status) ==> status == Verified && !leaves
      ensures Handled(State(), ok, leaves) == OnVerifyAck(old(State()), body, sendOk)
    {
      if status != Init || body.None? || body.value.result != SUCCESS {
        return false, false;
      }
      if body.value.hasGameName {
        needKeepPlay := true;
      } else if isTestNeedKeepPlay {
        return true, true;
      }
      status := Verified;
      return sendOk, false;
    }

    /** Leaves `Verified` iff told of success: to resume a game if there is one, else to find one. */
    method RecvInitGameAck(result: Option<int>, sendOk: bool) returns (ok: bool, leaves: bool)
      modifies `status, `needKeepPlay
      ensures status != old(status) <==> old(status) == Verified && result == Some(SUCCESS)
      ensures status != old(status) ==>
        status == (if old(needKeepPlay) then KeepPlay else InitGame) && !needKeepPlay
      ensures Handled(State(), ok, leaves) == OnInitGameAck(old(State()), result, sendOk)
    {
      if status != Verified || result.None? || result.value != SUCCESS {
        return false, false;
      }
      if needKeepPlay {
        status := KeepPlay;
      } else {
        status := InitGame;
      }
      NextActionProcess();
      return sendOk, false;
    }

    /** What follows a successful initialisation: resume a game, or look for one. */
    method NextActionProcess()
      modifies `needKeepPlay
      ensures needKeepPlay == if status == KeepPlay then false else old(needKeepPlay)
    {
      if status == KeepPlay {
        needKeepPlay := false;
      }
    }

    /** Leaves `InitGame` iff signing up is free, or the first cost that can be met is found. */
    method RecvQuerySignUpCondAck(cond: Option<CondBody>, sendOk: bool) returns (ok: bool, leaves: bool)
      modifies `status
      ensures status != old(status) <==>
        && old(status) == InitGame && cond.Some? && cond.value.result == SUCCESS
        && (!cond.value.hasLimit
            || (cond.value.limitEnabled && exists i :: 0 <= i < |cond.value.costs| && cond.value.costs[i].enable))
      ensures status != old(status) ==> status == CanSignUp || status == SignUped
      ensures status == SignUped && old(status) != SignUped <==>
        && status != old(status) && cond.value.hasLimit
        && exists i :: FirstMet(cond.value.costs, i) && cond.value.costs[i].signed
      ensures Handled(State(), ok, leaves) == OnSignUpCondAck(old(State()), cond, sendOk)
    {
      leaves := false;
      if status != InitGame || cond.None? || cond.value.result != SUCCESS {
        return false, false;
      }
      if !cond.value.hasLimit {
        status := CanSignUp;
        return sendOk, false;
      }
      if !cond.value.limitEnabled {
        return false, false;
      }
      var index := FindCost(cond.value.costs);
      if index == |cond.value.costs| {
        return false, false;
      }
      assert FirstMet(cond.value.costs, index);
      if cond.value.costs[index].signed {
        status := SignUped;
        return true, false;
      }
      status := CanSignUp;
      return sendOk, false;
    }

    /** Back in the game iff the server agrees and the robot is seated; turned down it starts over. */
    method RecvKeepPlayAck(keep: Option<KeepBody>, sendOk: bool) returns (ok: bool, leaves: bool)
      modifies `status
      ensures status == Gaming && old(status) != Gaming <==>
        old(status) == KeepPlay && keep.Some? && keep.value.result == 0 && keep.value.seated
      ensures status == Init && old(status) != Init <==> old(status) == KeepPlay && keep.Some? && keep.value.result != 0
      ensures status in {old(status), Gaming, Init}
      ensures Handled(State(), ok, leaves) == OnKeepAck(old(State()), keep, sendOk)
    {
      leaves := false;
      if status != KeepPlay || keep.None? {
        return false, false;
      }
      if keep.value.result != 0 {
        status := Init;
        return false, false;
      }
      if !keep.value.seated {
        return false, false;
      }
      status := Gaming;
      return sendOk, false;
    }

    /** Into a game from five statuses and from no other. */
    method RecvEnterGameSceneNotify(parsed: bool, sendOk: bool) returns (ok: bool, leaves: bool)
      modifies `status
      ensures status != old(status) <==> parsed && old(status) in {SignUped, QuickGame, KeepPlay, InitGame}
      ensures status != old(status) ==> status == Gaming
      ensures !parsed || old(status) !in {SignUped, QuickGame, Gaming, KeepPlay, InitGame} ==> !ok
      ensures Handled(State(), ok, leaves) == OnSwitchScene(old(State()), parsed, sendOk)
    {
      if !parsed {
        return false, false;
      }
      if status != SignUped && status != QuickGame && status != Gaming && status != KeepPlay {
        if status != InitGame {
          return false, false;
        }
      }
      status := Gaming;
      return sendOk, false;
    }

    /** Whatever the status was: on to the next game in a match room, out of it elsewhere. */
    method RecvGetGameResultNotify() returns (ok: bool, leaves: bool)
      modifies `status
      ensures ok && (isMatch ==> status == Gaming && !leaves) && (!isMatch ==> status == Init && leaves)
      ensures Handled(State(), ok, leaves) == OnGameResult(old(State()))
    {
      status := Gaming;
      leaves := false;
      if !isMatch {
        status := Init;
        leaves := true;
      }
      ok := true;
    }

    /** Leaves `InitGame` iff told of success; short of coins the robot itself leaves. */
    method RecvQuickBeginGameAck(result: Option<int>) returns (ok: bool, leaves: bool)
      modifies `status
      ensures status != old(status) <==> old(status) == InitGame && result == Some(0)
      ensures status != old(status) ==> status == QuickGame
      ensures leaves <==> old(status) == InitGame && result == Some(NOT_ENOUGH_COIN)
      ensures Handled(State(), ok, leaves) == OnQuickStartAck(old(State()), result)
    {
      if status != InitGame {
        return status == Gaming, false;
      }
      if result.None? {
        return false, false;
      }
      if result.value != 0 {
        var broke := result.value == NOT_ENOUGH_COIN;
        return broke, broke;
      }
      status := QuickGame;
      return true, false;
    }

    /** Leaves `CanSignUp` iff signed up, now or before. */
    method RecvSignUpAck(result: Option<int>) returns (ok: bool, leaves: bool)
      modifies `status
      ensures status != old(status) <==> old(status) == CanSignUp && result in {Some(0), Some(ALREADY_SIGNED)}
      ensures status != old(status) ==> status == SignUped
      ensures Handled(State(), ok, leaves) == OnSignUpAck(old(State()), result)
    {
      if status != CanSignUp {
        return status == Gaming, false;
      }
      if result.None? || (result.value != 0 && result.value != ALREADY_SIGNED) {
        return false, false;
      }
      status := SignUped;
      return true, false;
    }

    /** Deal, call, lord, base card, take-out, trust and ready notifications. */
    method RecvNotify(parsed: bool, replies: bool, sendOk: bool) returns (ok: bool, leaves: bool)
      ensures Handled(State(), ok, leaves) == OnNotify(State(), parsed, replies, sendOk)
    {
      if status != Gaming {
        return true, false;
      }
      return parsed && (replies ==> sendOk), false;
    }

    /** Game start, and the answers to a call, a take-out and a trust cancellation. */
    method RecvGameAck(parsed: bool) returns (ok: bool, leaves: bool)
      ensures Handled(State(), ok, leaves) == OnGameAck(State(), parsed)
    {
      return status == Gaming && parsed, false;
    }

    method RecvGetGameOverNotify(parsed: bool) returns (ok: bool, leaves: bool)
      modifies `status
      ensures Handled(State(), ok, leaves) == Dispatch(old(State()), GameOver(parsed), true)
    {
      if parsed {
        status := Init;
      }
      return true, parsed;
    }

    method RecvGetCompetitionOverNotify() returns (ok: bool, leaves: bool)
      modifies `status
      ensures Handled(State(), ok, leaves) == Dispatch(old(State()), MatchOver, true)
    {
      status := Init;
      return true, true;
    }

    /** Messages that look for a game, and lead into it. */
    method CallLobbyHandler(m: Message, sendOk: bool) returns (ok: bool, leaves: bool)
      requires InLobby(m)
      modifies `status, `needKeepPlay
      ensures Handled(State(), ok, leaves) == Dispatch(old(State()), m, sendOk)
    {
      hide OnVerifyAck, OnInitGameAck, OnQuickStartAck, OnSignUpCondAck, OnSignUpAck, OnKeepAck, OnSwitchScene;
      match m {
        case VerifyAck(body) => ok, leaves := RecvVerifyAck(body, sendOk);
        case InitGameAck(result) => ok, leaves := RecvInitGameAck(result, sendOk);
        case SignUpCondAck(cond) => ok, leaves := RecvQuerySignUpCondAck(cond, sendOk);
        case KeepAck(keep) => ok, leaves := RecvKeepPlayAck(keep, sendOk);
        case SwitchScene(parsed) => ok, leaves := RecvEnterGameSceneNotify(parsed, sendOk);
        case QuickStartAck(result) => ok, leaves := RecvQuickBeginGameAck(result);
        case SignUpAck(result) => ok, leaves := RecvSignUpAck(result);
        case CancelSignUpAck(result) => ok, leaves := result.Some? && result.value == 0, false;
      }
    }

    /** Messages of a game, and those that end it. */
    method CallGameHandler(m: Message, sendOk: bool) returns (ok: bool, leaves: bool)
      requires !InLobby(m)
      modifies `status
      ensures Handled(State(), ok, leaves) == Dispatch(old(State()), m, sendOk)
    {
      hide OnNotify, OnGameAck, OnGameResult;
      if Notified(m).Some? {
        ok, leaves := CallNotifyHandler(m, sendOk);
      } else {
        match m {
          case GameResult => ok, leaves := RecvGetGameResultNotify();
          case StartGame(parsed) => ok, leaves := RecvGameAck(parsed);
          case GameOver(parsed) => ok, leaves := RecvGetGameOverNotify(parsed);
          case MatchOver => ok, leaves := RecvGetCompetitionOverNotify();
          case CallScoreAck(parsed) => ok, leaves := RecvGameAck(parsed);
          case TakeOutAck(parsed) => ok, leaves := RecvGameAck(parsed);
          case TrustCancelAck(parsed) => ok, leaves := RecvGameAck(parsed);
          case Unhandled => ok, leaves := true, false;
        }
      }
    }

    method CallNotifyHandler(m: Message, sendOk: bool) returns (ok: bool, leaves: bool)
      requires Notified(m).Some?
      ensures Handled(State(), ok, leaves) == Dispatch(State(), m, sendOk)
    {
      hide OnNotify;
      match m {
        case DealCard(parsed, seated, myCall) => ok, leaves := RecvNotify(parsed && seated, myCall, sendOk);
        case CallScore(parsed, myCall) => ok, leaves := RecvNotify(parsed, myCall, sendOk);
        case SetLord(parsed) => ok, leaves := RecvNotify(parsed, false, sendOk);
        case BaseCard(parsed, myTurn) => ok, leaves := RecvNotify(parsed, myTurn, sendOk);
        case TakeOut(parsed, myTurn) => ok, leaves := RecvNotify(parsed, myTurn, sendOk);
        case Trust(parsed, mine) => ok, leaves := RecvNotify(parsed, mine, sendOk);
        case ReadyAck(parsed) => ok, leaves := RecvNotify(parsed, false, sendOk);
      }
    }

    /**
      A message through its handler; a handler that fails resets the robot and ends its connection.
      Whatever the message, outside match rooms a robot in a game has earned it.
     */
    method RobotProcess(m: Message, sendOk: bool) returns (leaves: bool)
      requires Valid()
      modifies `status, `needKeepPlay, `past
      ensures Valid() && State() == Step(old(State()), Receive(m, sendOk))
      ensures past == Remember(old(past), old(State()), Receive(m, sendOk))
      ensures !isMatch && status == Gaming ==> past.verified && past.initialised
      ensures status == Init || status == old(status) || Rank(old(status)) < Rank(status)
      ensures !leaves && status == Init ==> old(status) == Init
    {
      hide Dispatch;
      ghost var before := State();
      StepEarns(before, past, Receive(m, sendOk));
      MessageRaisesKeepsOrResets(before, m, sendOk);
      StaysOrLeaves(before, m, sendOk);
      var ok;
      if InLobby(m) {
        ok, leaves := CallLobbyHandler(m, sendOk);
      } else {
        ok, leaves := CallGameHandler(m, sendOk);
      }
      if !ok {
        status := Init;
        leaves := true;
      }
      past := Remember(past, before, Receive(m, sendOk));
    }
  }
}
