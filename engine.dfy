/** The room engine as functions over a value snapshot of a room.  Each
    handler of the socket server changes a `Room` object step by step (see
    room.dfy); the functions here say what state each handler leaves behind,
    and the lemmas state the game's guarantees about them. */
module Engine {
  import opened Types
  import opened Rotation

  /** A snapshot of every field of a room, plus the messages sent so far. */
  datatype Snapshot = Snapshot(
    code: string,
    hostSessionId: string,
    players: seq<Player>,
    phase: Phase,
    topics: map<int, string>,
    chains: seq<Chain>,
    currentRound: int,
    totalRounds: int,
    roundSubmissions: set<string>,
    revealChainIdx: int,
    revealStepIdx: int,
    outbox: seq<Emit>)

  /** Every seat has a chain to work on and every chain has a last entry. */
  predicate ChainsReady(s: Snapshot) {
    && |s.players| <= |s.chains|
    && forall c :: 0 <= c < |s.chains| ==> |s.chains[c].entries| > 0
  }

  /** The object invariant of a room: while a game is running or being
      revealed there is at least one chain and `ChainsReady` holds; the reveal
      cursor never goes negative. */
  predicate Good(s: Snapshot) {
    && s.revealChainIdx >= 0
    && s.revealStepIdx >= 0
    && (s.phase == Playing || s.phase == Reveal ==> |s.chains| >= 1 && ChainsReady(s))
  }

  /** `isHostP`. */
  predicate IsHost(s: Snapshot, p: Player) {
    p.sessionId == s.hostSessionId
  }

  /** The first player on connection `sock` exists and holds the host session
      (the per-room test of `findByHost`). */
  predicate IsHostSocket(s: Snapshot, sock: string) {
    var i := FindIndex(s.players, BySocket(sock));
    i >= 0 && IsHost(s, s.players[i])
  }

  /** A player the round cannot wait for: kicked, or not connected. */
  predicate Inactive(p: Player) {
    p.kicked || !p.online
  }

  /** The session ids of a roster. */
  function Sessions(ps: seq<Player>): set<string> {
    set j | 0 <= j < |ps| :: ps[j].sessionId
  }

  predicate DistinctSessions(ps: seq<Player>) {
    forall j, k :: 0 <= j < k < |ps| ==> ps[j].sessionId != ps[k].sessionId
  }

  /** Even rounds are drawing rounds, odd rounds guessing rounds.  The test
      `round % 2 === 0` gives the same answer under JavaScript's and Dafny's `%`. */
  function TaskKind(round: int): Kind {
    if round % 2 == 0 then Drawing else Guess
  }

  /** `getAutoSubmitContent`: an empty drawing, or the "time is up" marker. */
  function AutoSubmitContent(round: int): (t: string)
    ensures t == "" <==> TaskKind(round) == Drawing
    ensures TaskKind(round) == Guess ==> t == "(時間切れ)"
  {
    if round % 2 == 0 then "" else "(時間切れ)"
  }

  function Placeholder(round: int, name: string): Entry {
    Entry(TaskKind(round), AutoSubmitContent(round), name)
  }

  function Extend(c: Chain, e: Entry): Chain {
    c.(entries := c.entries + [e])
  }

  /** `cs2` only appends to the chains of `cs1`. */
  predicate Grows(cs1: seq<Chain>, cs2: seq<Chain>) {
    && |cs1| == |cs2|
    && forall c :: 0 <= c < |cs1| ==>
         && cs2[c].topicPlayerIdx == cs1[c].topicPlayerIdx
         && cs2[c].topicPlayerName == cs1[c].topicPlayerName
         && |cs1[c].entries| <= |cs2[c].entries|
         && cs2[c].entries[..|cs1[c].entries|] == cs1[c].entries
  }

  lemma GrowsTransitive(a: seq<Chain>, b: seq<Chain>, c: seq<Chain>)
    requires Grows(a, b) && Grows(b, c)
    ensures Grows(a, c)
  {
    forall k | 0 <= k < |a|
      ensures c[k].entries[..|a[k].entries|] == a[k].entries
    {
      assert c[k].entries[..|a[k].entries|] == c[k].entries[..|b[k].entries|][..|a[k].entries|];
    }
  }

  /** `autoSubmitForInactive`, from seat `i` on: every inactive seat whose
      session has not submitted gets the round's placeholder on its chain. */
  function AutoFillFrom(ps: seq<Player>, round: int, cs: seq<Chain>, subs: set<string>, i: nat)
    : (r: (seq<Chain>, set<string>))
    requires |ps| <= |cs| && i <= |ps|
    ensures Grows(cs, r.0)
    ensures subs <= r.1
    decreases |ps| - i
  {
    if i == |ps| then (cs, subs)
    else if Inactive(ps[i]) && ps[i].sessionId !in subs then
      var c := ChainFor(|ps|, i, round);
      var cs' := AppendEntry(cs, c, Placeholder(round, ps[i].name));
      assert cs'[c].entries[..|cs[c].entries|] == cs[c].entries;
      var r := AutoFillFrom(ps, round, cs', subs + {ps[i].sessionId}, i + 1);
      GrowsTransitive(cs, cs', r.0);
      r
    else
      AutoFillFrom(ps, round, cs, subs, i + 1)
  }

  /** A seat the auto-submission acts on, given the submissions so far. */
  predicate Fills(ps: seq<Player>, subs: set<string>, j: int)
    requires 0 <= j < |ps|
  {
    Inactive(ps[j]) && ps[j].sessionId !in subs
  }

  /** `autoSubmitForInactive` records every inactive seat's session, and no
      other. */
  lemma {:induction false} AutoFillSubmits(ps: seq<Player>, round: int, cs: seq<Chain>, subs: set<string>, i: nat)
    requires |ps| <= |cs| && i <= |ps|
    ensures AutoFillFrom(ps, round, cs, subs, i).1
            == subs + (set j | i <= j < |ps| && Inactive(ps[j]) :: ps[j].sessionId)
    decreases |ps| - i
  {
    if i < |ps| {
      if Inactive(ps[i]) && ps[i].sessionId !in subs {
        var c := ChainFor(|ps|, i, round);
        var cs' := AppendEntry(cs, c, Placeholder(round, ps[i].name));
        AutoFillSubmits(ps, round, cs', subs + {ps[i].sessionId}, i + 1);
      } else {
        AutoFillSubmits(ps, round, cs, subs, i + 1);
      }
      assert (set j | i <= j < |ps| && Inactive(ps[j]) :: ps[j].sessionId)
          == (if Inactive(ps[i]) then {ps[i].sessionId} else {})
             + (set j | i + 1 <= j < |ps| && Inactive(ps[j]) :: ps[j].sessionId);
    }
  }

  /** With distinct session ids, `autoSubmitForInactive` appends exactly one
      placeholder to the chain of each seat it acts on, and leaves every other
      chain as it was. */
  lemma {:induction false} AutoFillAppends(ps: seq<Player>, round: int, cs: seq<Chain>, subs: set<string>, i: nat)
    requires |ps| <= |cs| && i <= |ps| && DistinctSessions(ps)
    ensures var r := AutoFillFrom(ps, round, cs, subs, i).0;
      && (forall j :: i <= j < |ps| && Fills(ps, subs, j) ==>
            r[ChainFor(|ps|, j, round)] == Extend(cs[ChainFor(|ps|, j, round)], Placeholder(round, ps[j].name)))
      && (forall c :: 0 <= c < |cs| && (forall j :: i <= j < |ps| && Fills(ps, subs, j) ==> ChainFor(|ps|, j, round) != c)
            ==> r[c] == cs[c])
  {
    AutoFillExtends(ps, round, cs, subs, i);
    AutoFillKeeps(ps, round, cs, subs, i);
  }

  /** The seats from `i` on use chains other than seat `i`'s. */
  lemma OthersChainsDiffer(n: int, round: int, i: int)
    requires 0 <= i < n
    ensures forall j :: i < j < n ==> ChainFor(n, j, round) != ChainFor(n, i, round)
  {
    forall j | i < j < n
      ensures ChainFor(n, j, round) != ChainFor(n, i, round)
    {
      if ChainFor(n, j, round) == ChainFor(n, i, round) {
        ChainForInjective(n, j, i, round);
      }
    }
  }

  /** The placeholder half of `AutoFillAppends`. */
  lemma {:induction false} AutoFillExtends(ps: seq<Player>, round: int, cs: seq<Chain>, subs: set<string>, i: nat)
    requires |ps| <= |cs| && i <= |ps| && DistinctSessions(ps)
    ensures var r := AutoFillFrom(ps, round, cs, subs, i).0;
      forall j :: i <= j < |ps| && Fills(ps, subs, j) ==>
        r[ChainFor(|ps|, j, round)] == Extend(cs[ChainFor(|ps|, j, round)], Placeholder(round, ps[j].name))
    decreases |ps| - i
  {
    if i < |ps| {
      var n := |ps|;
      var ci := ChainFor(n, i, round);
      OthersChainsDiffer(n, round, i);
      if Fills(ps, subs, i) {
        var cs' := AppendEntry(cs, ci, Placeholder(round, ps[i].name));
        var subs' := subs + {ps[i].sessionId};
        AutoFillExtends(ps, round, cs', subs', i + 1);
        AutoFillKeeps(ps, round, cs', subs', i + 1);
        var r := AutoFillFrom(ps, round, cs, subs, i).0;
        assert r == AutoFillFrom(ps, round, cs', subs', i + 1).0;
        forall j | i <= j < n && Fills(ps, subs, j)
          ensures r[ChainFor(n, j, round)] == Extend(cs[ChainFor(n, j, round)], Placeholder(round, ps[j].name))
        {
          if j == i {
            assert r[ci] == cs'[ci];
          } else {
            assert ps[j].sessionId != ps[i].sessionId;
            assert Fills(ps, subs', j);
          }
        }
      } else {
        AutoFillExtends(ps, round, cs, subs, i + 1);
      }
    }
  }

  /** The other half of `AutoFillAppends`: a chain no acted-on seat uses is
      left as it was. */
  lemma {:induction false} AutoFillKeeps(ps: seq<Player>, round: int, cs: seq<Chain>, subs: set<string>, i: nat)
    requires |ps| <= |cs| && i <= |ps|
    ensures var r := AutoFillFrom(ps, round, cs, subs, i).0;
      forall c :: 0 <= c < |cs| && (forall j :: i <= j < |ps| && Fills(ps, subs, j) ==> ChainFor(|ps|, j, round) != c)
        ==> r[c] == cs[c]
    decreases |ps| - i
  {
    if i < |ps| {
      var ci := ChainFor(|ps|, i, round);
      if Fills(ps, subs, i) {
        var cs' := AppendEntry(cs, ci, Placeholder(round, ps[i].name));
        var subs' := subs + {ps[i].sessionId};
        AutoFillKeeps(ps, round, cs', subs', i + 1);
      } else {
        AutoFillKeeps(ps, round, cs, subs, i + 1);
      }
    }
  }

  /** A seat that is still owed a prompt: connected, not kicked, not yet submitted. */
  predicate Awaited(s: Snapshot, j: int)
    requires 0 <= j < |s.players|
  {
    s.players[j].socketId.Some? && !s.players[j].kicked && s.players[j].sessionId !in s.roundSubmissions
  }

  /** The `yourTurn` prompt for seat `j`: the last entry of its chain this round. */
  function PromptFor(s: Snapshot, j: int): Message
    requires ChainsReady(s) && 0 <= j < |s.players|
  {
    var c := ChainFor(|s.players|, j, s.currentRound);
    var last := s.chains[c].entries[|s.chains[c].entries| - 1];
    YourTurn(TaskKind(s.currentRound), last.content, last.kind, s.currentRound + 1, s.totalRounds)
  }

  /** A seat's prompt depends only on the roster size, the round and the
      chains, not on who sits where or on what was sent. */
  lemma PromptSameGame(s: Snapshot, t: Snapshot, j: int)
    requires ChainsReady(s) && 0 <= j < |s.players|
    requires |t.players| == |s.players| && t.chains == s.chains
    requires t.currentRound == s.currentRound && t.totalRounds == s.totalRounds
    ensures ChainsReady(t) && PromptFor(t, j) == PromptFor(s, j)
  {
  }

  /** The prompts `startRound` sends, from seat `i` on, in seat order. */
  function Prompts(s: Snapshot, i: nat): seq<Emit>
    requires ChainsReady(s) && i <= |s.players|
    decreases |s.players| - i
  {
    if i == |s.players| then []
    else
      (if Awaited(s, i) then [Emit(s.players[i].socketId.value, PromptFor(s, i))] else [])
      + Prompts(s, i + 1)
  }

  /** Every prompt `startRound` sends goes to an awaited seat's connection
      and shows that seat's chain. */
  lemma {:induction false} PromptsSound(s: Snapshot, i: nat)
    requires ChainsReady(s) && i <= |s.players|
    ensures forall e :: e in Prompts(s, i) ==>
      exists j :: i <= j < |s.players| && Awaited(s, j) && e == Emit(s.players[j].socketId.value, PromptFor(s, j))
    decreases |s.players| - i
  {
    if i < |s.players| {
      PromptsSound(s, i + 1);
    }
  }

  /** Every awaited seat gets its prompt. */
  lemma {:induction false} PromptsComplete(s: Snapshot, i: nat)
    requires ChainsReady(s) && i <= |s.players|
    ensures forall j :: i <= j < |s.players| && Awaited(s, j) ==>
      Emit(s.players[j].socketId.value, PromptFor(s, j)) in Prompts(s, i)
    decreases |s.players| - i
  {
    if i < |s.players| {
      PromptsComplete(s, i + 1);
    }
  }

  /** With no awaited seat, nothing is sent. */
  lemma {:induction false} PromptsNone(s: Snapshot, i: nat)
    requires ChainsReady(s) && i <= |s.players|
    requires forall j :: i <= j < |s.players| ==> !Awaited(s, j)
    ensures Prompts(s, i) == []
    decreases |s.players| - i
  {
    if i < |s.players| {
      PromptsNone(s, i + 1);
    }
  }

  function Revealed(s: Snapshot): (t: Snapshot) {
    s.(phase := Reveal,
       outbox := s.outbox + Broadcast(s.players, AllRevealedTo(s.chains, s.hostSessionId)))
  }

  /** `startRound`: clear the round's submissions, auto-submit for inactive
      seats, and either advance at once (everyone has submitted) or prompt the
      awaited seats and broadcast the progress. */
  function StartRoundSpec(s: Snapshot): (t: Snapshot)
    requires ChainsReady(s)
    decreases s.totalRounds - s.currentRound, 1
  {
    var n := |s.players|;
    var filled := AutoFillFrom(s.players, s.currentRound, s.chains, {}, 0);
    var s1 := s.(chains := filled.0, roundSubmissions := filled.1);
    var sub := |filled.1|;
    if sub >= n then AdvanceSpec(s1)
    else
      s1.(outbox := s1.outbox + Prompts(s1, 0) + Broadcast(s1.players, Everyone(RoundProgress(sub, n))))
  }

  /** The round barrier once all `N` submissions are in: next round, or reveal
      after the last one. */
  function AdvanceSpec(s: Snapshot): (t: Snapshot)
    requires ChainsReady(s)
    decreases s.totalRounds - s.currentRound, 0
  {
    var s1 := s.(currentRound := s.currentRound + 1);
    if s1.currentRound >= s1.totalRounds then Revealed(s1)
    else StartRoundSpec(s1)
  }

  function WaitingNote(p: Player, sub: int, n: int): seq<Emit> {
    if p.socketId.Some? then [Emit(p.socketId.value, WaitingForOthers(sub, n))] else []
  }

  /** The recording half of `handleSubmission` for seat `p`: append the entry
      to the seat's chain, mark the session, notify the submitter and everyone. */
  function Record(s: Snapshot, p: int, kind: Kind, content: string): (t: Snapshot)
    requires ChainsReady(s) && 0 <= p < |s.players|
    ensures ChainsReady(t) && t.players == s.players && t.currentRound == s.currentRound
    ensures t.roundSubmissions == s.roundSubmissions + {s.players[p].sessionId}
  {
    var n := |s.players|;
    var c := ChainFor(n, p, s.currentRound);
    var subs := s.roundSubmissions + {s.players[p].sessionId};
    var sub := |subs|;
    s.(chains := AppendEntry(s.chains, c, Entry(kind, content, s.players[p].name)),
       roundSubmissions := subs,
       outbox := s.outbox + WaitingNote(s.players[p], sub, n)
                 + Broadcast(s.players, Everyone(RoundProgress(sub, n))))
  }

  /** `handleSubmission`: accept at most one entry per session and round. */
  function SubmitSpec(s: Snapshot, sid: string, kind: Kind, content: string): (t: Snapshot)
    requires ChainsReady(s)
  {
    var p := FindIndex(s.players, BySession(sid));
    if p == -1 || sid in s.roundSubmissions then s
    else
      var s1 := Record(s, p, kind, content);
      if |s1.roundSubmissions| >= |s.players| then AdvanceSpec(s1) else s1
  }

  /** `buildChains`: one chain per seat, seeded with that seat's topic. */
  function SeedChains(ps: seq<Player>, topics: map<int, string>): (cs: seq<Chain>)
    requires forall i :: 0 <= i < |ps| ==> i in topics
    ensures |cs| == |ps|
    ensures forall i :: 0 <= i < |ps| ==> cs[i] == Chain(i, ps[i].name, [Entry(Topic, topics[i], ps[i].name)])
  {
    seq(|ps|, i requires 0 <= i < |ps| => Chain(i, ps[i].name, [Entry(Topic, topics[i], ps[i].name)]))
  }

  /** How many of the seats `0 .. n-1` have a topic (the server's
      `players.filter((_, i) => topics[i] !== undefined).length`). */
  function TopicCount(n: int, topics: map<int, string>): (k: nat)
    ensures n >= 0 ==> k <= n
    ensures n <= 0 ==> k == 0
    ensures n >= 0 ==> (k == n <==> forall i :: 0 <= i < n ==> i in topics)
    decreases n
  {
    if n <= 0 then 0 else TopicCount(n - 1, topics) + (if n - 1 in topics then 1 else 0)
  }

  /** Entering `playing` (`phase = 'playing'; buildChains; startRound`). */
  function BeginPlay(s: Snapshot): (t: Snapshot)
    requires forall i :: 0 <= i < |s.players| ==> i in s.topics
  {
    StartRoundSpec(s.(phase := Playing, chains := SeedChains(s.players, s.topics), currentRound := 0,
                      totalRounds := |s.players| - 1, roundSubmissions := {}))
  }

  /** Record seat `i`'s topic, broadcast the topic progress, and start play
      once every seat has a topic. */
  function FinishTopic(s: Snapshot, i: int, text: string): (t: Snapshot)
  {
    var topics := s.topics[i := text];
    var n := |s.players|;
    var sub := TopicCount(n, topics);
    var s1 := s.(topics := topics, outbox := s.outbox + Broadcast(s.players, Everyone(TopicProgress(sub, n))));
    if sub >= n then BeginPlay(s1) else s1
  }

  /** The `submitTopic` handler on the caller's room.  A second topic from the
      same seat overwrites the first. */
  function SubmitTopicSpec(s: Snapshot, sock: string, topic: string): (t: Snapshot)
  {
    if s.phase != Topics then s
    else
      var i := FindIndex(s.players, BySocket(sock));
      if i == -1 then s
      else FinishTopic(s.(outbox := s.outbox + [Emit(sock, TopicSubmitted)]), i, Trim(topic))
  }

  /** `broadcastLobby`. */
  function LobbyBroadcast(s: Snapshot): seq<Emit> {
    Broadcast(s.players, RoomStateTo(s.code, s.players, s.phase, s.hostSessionId))
  }

  /** `broadcastPlayersStatus`. */
  function StatusBroadcast(s: Snapshot): seq<Emit> {
    Broadcast(s.players, Everyone(PlayersStatus(Views(s.players))))
  }

  /** `restoreState`: what a returning player at seat `j` is sent, computed
      from the room's current state alone.  Outside the lobby only that
      player is addressed. */
  function RestoreEmits(s: Snapshot, j: int): (r: seq<Emit>)
    requires 0 <= j < |s.players| && (s.phase == Playing ==> ChainsReady(s))
    ensures s.players[j].socketId.None? ==> r == []
    ensures s.phase != Lobby ==> |r| <= 2 && forall e :: e in r ==> Some(e.to) == s.players[j].socketId
    ensures s.phase != Lobby && s.players[j].socketId.Some? ==> |r| >= 1
    ensures s.phase == Topics && s.players[j].socketId.Some? ==>
      && (|r| == 2 <==> j in s.topics)
      && (r[0].msg.EnterTopic? <==> j !in s.topics)
      && (j in s.topics ==> r[0].msg.TopicSubmitted? && r[1].msg.TopicProgress? && r[1].msg.total == |s.players|)
    ensures s.phase == Playing && s.players[j].socketId.Some? ==>
      |r| == 1 && (r[0].msg.YourTurn? <==> s.players[j].sessionId !in s.roundSubmissions)
    ensures s.phase == Reveal && s.players[j].socketId.Some? ==>
      |r| == 1 && r[0].msg.AllRevealed? && r[0].msg.chains == s.chains
  {
    var p := s.players[j];
    match p.socketId
    case None => []
    case Some(sock) =>
      match s.phase
      case Lobby => LobbyBroadcast(s)
      case Topics =>
        if j in s.topics then [Emit(sock, TopicSubmitted), Emit(sock, TopicProgress(TopicCount(|s.players|, s.topics), |s.players|))]
        else [Emit(sock, EnterTopic(IsHost(s, p)))]
      case Playing =>
        if p.sessionId in s.roundSubmissions then [Emit(sock, WaitingForOthers(|s.roundSubmissions|, |s.players|))]
        else [Emit(sock, PromptFor(s, j))]
      case Reveal => [Emit(sock, AllRevealed(s.chains, IsHost(s, p)))]
  }

  /** The fields no round, submission or topic step touches. */
  predicate SameRoster(s: Snapshot, t: Snapshot) {
    && t.code == s.code && t.hostSessionId == s.hostSessionId && t.players == s.players
    && t.topics == s.topics && t.totalRounds == s.totalRounds
    && t.revealChainIdx == s.revealChainIdx && t.revealStepIdx == s.revealStepIdx
  }

  predicate Extends(a: seq<Emit>, b: seq<Emit>) {
    |a| <= |b| && b[..|a|] == a
  }

  /** What a round step leaves behind: the roster is untouched, chains only
      grow, messages are only added; the room either shows the reveal or waits
      in `playing` for fewer than `N` submissions with every inactive seat
      already submitted; and once the round index has moved, the phase is
      `reveal` exactly when it has reached `totalRounds`. */
  predicate RoundStepped(s: Snapshot, t: Snapshot) {
    && SameRoster(s, t) && Grows(s.chains, t.chains) && ChainsReady(t)
    && Extends(s.outbox, t.outbox)
    && t.currentRound >= s.currentRound
    && (t.phase == Reveal || t.phase == Playing)
    && (t.phase == Playing ==>
          && |t.roundSubmissions| < |t.players|
          && forall j :: 0 <= j < |t.players| && Inactive(t.players[j]) ==> t.players[j].sessionId in t.roundSubmissions)
  }

  /** `startRound` terminates (the recursion is on `totalRounds - currentRound`)
      and either leaves the round open or has moved on. */
  lemma {:induction false} StartRoundOutcome(s: Snapshot)
    requires ChainsReady(s) && s.phase == Playing
    ensures var t := StartRoundSpec(s);
      && RoundStepped(s, t)
      && (t.currentRound == s.currentRound ==> t.phase == Playing)
      && (t.currentRound > s.currentRound ==> (t.phase == Reveal <==> t.currentRound >= t.totalRounds))
    decreases s.totalRounds - s.currentRound, 1
  {
    var n := |s.players|;
    var filled := AutoFillFrom(s.players, s.currentRound, s.chains, {}, 0);
    AutoFillSubmits(s.players, s.currentRound, s.chains, {}, 0);
    var s1 := s.(chains := filled.0, roundSubmissions := filled.1);
    if |filled.1| >= n {
      AdvanceOutcome(s1);
      GrowsTransitive(s.chains, s1.chains, AdvanceSpec(s1).chains);
    }
  }

  /** Completing a round: the round index moves on, and the phase is `reveal`
      exactly when it has reached `totalRounds`. */
  lemma {:induction false} AdvanceOutcome(s: Snapshot)
    requires ChainsReady(s) && s.phase == Playing
    ensures var t := AdvanceSpec(s);
      && RoundStepped(s, t)
      && t.currentRound > s.currentRound
      && (t.phase == Reveal <==> t.currentRound >= t.totalRounds)
    decreases s.totalRounds - s.currentRound, 0
  {
    var s1 := s.(currentRound := s.currentRound + 1);
    if s1.currentRound < s1.totalRounds {
      StartRoundOutcome(s1);
    }
  }

  lemma SessionSetSize(ps: seq<Player>)
    requires DistinctSessions(ps)
    ensures |set j | 0 <= j < |ps| :: ps[j].sessionId| == |ps|
  {
    if ps != [] {
      var rest := ps[..|ps| - 1];
      SessionSetSize(rest);
      assert (set j | 0 <= j < |ps| :: ps[j].sessionId)
          == (set j | 0 <= j < |rest| :: rest[j].sessionId) + {ps[|ps| - 1].sessionId};
    }
  }

  /** Messages added from `s` to `t` include no `yourTurn`. */
  predicate NoNewPrompt(s: Snapshot, t: Snapshot) {
    Extends(s.outbox, t.outbox) && forall k :: |s.outbox| <= k < |t.outbox| ==> !t.outbox[k].msg.YourTurn?
  }

  /** When no seat can answer (all kicked or disconnected) a round closes by
      itself without prompting anyone; with distinct sessions every remaining
      round closes the same way and the game ends in `reveal`. */
  lemma {:induction false} AllInactiveNoPrompt(s: Snapshot)
    requires ChainsReady(s)
    requires forall j :: 0 <= j < |s.players| ==> Inactive(s.players[j])
    ensures NoNewPrompt(s, StartRoundSpec(s))
    ensures DistinctSessions(s.players) ==> StartRoundSpec(s).phase == Reveal
    decreases s.totalRounds - s.currentRound, 1
  {
    var n := |s.players|;
    var filled := AutoFillFrom(s.players, s.currentRound, s.chains, {}, 0);
    var s1 := s.(chains := filled.0, roundSubmissions := filled.1);
    AllSubmitted(s);
    if |filled.1| >= n {
      AllInactiveAdvance(s1);
    } else {
      assert forall j :: 0 <= j < n ==> !Awaited(s1, j);
      PromptsNone(s1, 0);
      var added := Broadcast(s1.players, Everyone(RoundProgress(|filled.1|, n)));
      var t := StartRoundSpec(s);
      assert t.outbox == s.outbox + added;
      forall k | |s.outbox| <= k < |t.outbox|
        ensures !t.outbox[k].msg.YourTurn?
      {
        assert t.outbox[k] in added;
      }
    }
  }

  /** Auto-submission alone submits for every seat when all are inactive. */
  lemma AllSubmitted(s: Snapshot)
    requires ChainsReady(s)
    requires forall j :: 0 <= j < |s.players| ==> Inactive(s.players[j])
    ensures var subs := AutoFillFrom(s.players, s.currentRound, s.chains, {}, 0).1;
      && (forall j :: 0 <= j < |s.players| ==> s.players[j].sessionId in subs)
      && (DistinctSessions(s.players) ==> |subs| == |s.players|)
  {
    AutoFillSubmits(s.players, s.currentRound, s.chains, {}, 0);
    var subs := AutoFillFrom(s.players, s.currentRound, s.chains, {}, 0).1;
    assert subs == set j | 0 <= j < |s.players| :: s.players[j].sessionId;
    if DistinctSessions(s.players) {
      SessionSetSize(s.players);
    }
  }

  lemma {:induction false} AllInactiveAdvance(s: Snapshot)
    requires ChainsReady(s)
    requires forall j :: 0 <= j < |s.players| ==> Inactive(s.players[j])
    ensures NoNewPrompt(s, AdvanceSpec(s))
    ensures DistinctSessions(s.players) ==> AdvanceSpec(s).phase == Reveal
    decreases s.totalRounds - s.currentRound, 0
  {
    var s1 := s.(currentRound := s.currentRound + 1);
    if s1.currentRound >= s1.totalRounds {
      var t := Revealed(s1);
      var added := Broadcast(s1.players, AllRevealedTo(s1.chains, s1.hostSessionId));
      assert t.outbox == s.outbox + added;
      forall k | |s.outbox| <= k < |t.outbox|
        ensures !t.outbox[k].msg.YourTurn?
      {
        assert t.outbox[k] in added;
      }
    } else {
      AllInactiveNoPrompt(s1);
    }
  }

  /** `handleSubmission` ignores an unknown session and a second submission in
      the same round.  Otherwise it appends exactly one entry, to the chain the
      rotation assigns to the submitter, and records the session; below `N`
      submissions nothing else changes in the chains, and at the `N`-th the
      round index moves on and the phase is `reveal` exactly when it has
      reached `totalRounds`. */
  lemma {:induction false} SubmitOutcome(s: Snapshot, sid: string, kind: Kind, content: string)
    requires ChainsReady(s) && s.phase == Playing
    ensures var t := SubmitSpec(s, sid, kind, content);
      var p := FindIndex(s.players, BySession(sid));
      && SameRoster(s, t) && ChainsReady(t) && |t.chains| == |s.chains|
      && (t.phase == Playing || t.phase == Reveal)
      && ((p == -1 || sid in s.roundSubmissions) ==> t == s)
      && (p >= 0 && sid !in s.roundSubmissions ==>
            var cs := AppendEntry(s.chains, ChainFor(|s.players|, p, s.currentRound), Entry(kind, content, s.players[p].name));
            var subs := s.roundSubmissions + {sid};
            && (|subs| < |s.players| ==>
                  && t.chains == cs && t.roundSubmissions == subs
                  && t.currentRound == s.currentRound && t.phase == Playing)
            && (|subs| >= |s.players| ==>
                  && Grows(cs, t.chains) && t.currentRound > s.currentRound
                  && (t.phase == Reveal <==> t.currentRound >= t.totalRounds)))
  {
    var p := FindIndex(s.players, BySession(sid));
    if p >= 0 && sid !in s.roundSubmissions {
      var s1 := Record(s, p, kind, content);
      if |s1.roundSubmissions| >= |s.players| {
        AdvanceOutcome(s1);
      }
    }
  }

  /** A session that submitted is not accepted again in the same round. */
  lemma {:induction false} SubmitTwiceIgnored(s: Snapshot, sid: string, k1: Kind, c1: string, k2: Kind, c2: string)
    requires ChainsReady(s) && s.phase == Playing
    requires SubmitSpec(s, sid, k1, c1).currentRound == s.currentRound
    ensures ChainsReady(SubmitSpec(s, sid, k1, c1))
    ensures SubmitSpec(SubmitSpec(s, sid, k1, c1), sid, k2, c2) == SubmitSpec(s, sid, k1, c1)
  {
    SubmitOutcome(s, sid, k1, c1);
  }

  /** Another seat's submission does not change the prompt owed to seat `j`:
      it appends to a different chain. */
  lemma {:induction false} PromptStable(s: Snapshot, j: int, p: int, kind: Kind, content: string)
    requires ChainsReady(s) && 0 <= j < |s.players| && 0 <= p < |s.players| && p != j
    ensures ChainsReady(Record(s, p, kind, content))
    ensures PromptFor(Record(s, p, kind, content), j) == PromptFor(s, j)
  {
    var n := |s.players|;
    if ChainFor(n, p, s.currentRound) == ChainFor(n, j, s.currentRound) {
      ChainForInjective(n, p, j, s.currentRound);
    }
  }

  /** A returning player who owes this round's entry gets back the very
      prompt `startRound` sends to that seat, and nothing else. */
  lemma {:induction false} RestoreRepeatsPrompt(s: Snapshot, j: int)
    requires ChainsReady(s) && s.phase == Playing && 0 <= j < |s.players| && Awaited(s, j)
    ensures var e := Emit(s.players[j].socketId.value, PromptFor(s, j));
      RestoreEmits(s, j) == [e] && e in Prompts(s, 0)
  {
    PromptsComplete(s, 0);
  }

  /** A returning player who already submitted gets the wait state, never a
      prompt, with the submission count as it stands now (not the count
      `handleSubmission` showed it when its entry came in). */
  lemma {:induction false} RestoreAfterSubmitWaits(s: Snapshot, j: int)
    requires ChainsReady(s) && s.phase == Playing && 0 <= j < |s.players|
    requires s.players[j].socketId.Some? && s.players[j].sessionId in s.roundSubmissions
    ensures forall e :: e in RestoreEmits(s, j) ==> e.msg.WaitingForOthers?
    ensures RestoreEmits(s, j) == [Emit(s.players[j].socketId.value, WaitingForOthers(|s.roundSubmissions|, |s.players|))]
  {
  }

  /** A returning player in `topics` who has written a topic is told so again
      and gets the topic count as it stands, the very messages the room sent
      that seat when its topic came in; the room is still waiting, so the
      count is below `N`. */
  lemma {:induction false} RestoreRepeatsTopicProgress(s: Snapshot, sock: string, topic: string)
    requires s.phase == Topics && FindIndex(s.players, BySocket(sock)) >= 0
    requires SubmitTopicSpec(s, sock, topic).phase == Topics
    ensures var t := SubmitTopicSpec(s, sock, topic);
      var i := FindIndex(s.players, BySocket(sock));
      var n := |s.players|;
      var k := TopicCount(n, t.topics);
      && t.players == s.players && i in t.topics && k < n
      && RestoreEmits(t, i) == [Emit(sock, TopicSubmitted), Emit(sock, TopicProgress(k, n))]
      && Emit(sock, TopicSubmitted) in t.outbox && Emit(sock, TopicProgress(k, n)) in t.outbox
  {
    var i := FindIndex(s.players, BySocket(sock));
    var n := |s.players|;
    var s0 := s.(outbox := s.outbox + [Emit(sock, TopicSubmitted)]);
    var topics := s.topics[i := Trim(topic)];
    var k := TopicCount(n, topics);
    var b := Broadcast(s.players, Everyone(TopicProgress(k, n)));
    TopicOutcome(s0, i, Trim(topic));
    assert k < n;
    var t := FinishTopic(s0, i, Trim(topic));
    assert t == s0.(topics := topics, outbox := s0.outbox + b);
    assert Emit(sock, Everyone(TopicProgress(k, n))(s.players[i])) in b;
  }

  /** Once the last round closes, a returning player is shown all chains,
      the very message the reveal sent that seat. */
  lemma {:induction false} RestoreRepeatsReveal(s: Snapshot, j: int)
    requires 0 <= j < |s.players| && s.players[j].socketId.Some?
    ensures var t := Revealed(s);
      var e := Emit(s.players[j].socketId.value, AllRevealed(s.chains, IsHost(s, s.players[j])));
      RestoreEmits(t, j) == [e] && e in t.outbox
  {
    var b := Broadcast(s.players, AllRevealedTo(s.chains, s.hostSessionId));
    assert Emit(s.players[j].socketId.value, AllRevealedTo(s.chains, s.hostSessionId)(s.players[j])) in b;
  }

  /** Entering `playing` seeds one chain per seat with that seat's topic,
      sets `totalRounds = N - 1`, and runs the first round. */
  lemma {:induction false} BeginPlayOutcome(s: Snapshot)
    requires forall k :: 0 <= k < |s.players| ==> k in s.topics
    ensures var t := BeginPlay(s);
      && (t.phase == Playing || t.phase == Reveal)
      && t.players == s.players && t.topics == s.topics
      && t.totalRounds == |s.players| - 1 && t.hostSessionId == s.hostSessionId
      && t.revealChainIdx == s.revealChainIdx && t.revealStepIdx == s.revealStepIdx
      && |t.chains| == |s.players| && ChainsReady(t)
      && forall c :: 0 <= c < |s.players| ==>
           && t.chains[c].topicPlayerIdx == c
           && |t.chains[c].entries| > 0
           && t.chains[c].entries[0] == Entry(Topic, s.topics[c], s.players[c].name)
  {
    var n := |s.players|;
    var s2 := s.(phase := Playing, chains := SeedChains(s.players, s.topics), currentRound := 0,
                 totalRounds := n - 1, roundSubmissions := {});
    StartRoundOutcome(s2);
    var t := StartRoundSpec(s2);
    forall c | 0 <= c < n
      ensures t.chains[c].entries[0] == Entry(Topic, s.topics[c], s.players[c].name)
    {
      assert t.chains[c].entries[..1] == s2.chains[c].entries;
    }
  }

  /** Recording a topic overwrites an earlier one for the same seat.  While a
      seat still lacks a topic the room stays in `topics` with its chains
      untouched; once every seat has one, play starts as `BeginPlayOutcome`
      describes. */
  lemma {:induction false} TopicOutcome(s: Snapshot, i: int, text: string)
    requires 0 <= i < |s.players| && s.phase == Topics
    ensures var t := FinishTopic(s, i, text);
      var topics := s.topics[i := text];
      && t.players == s.players && t.topics == topics && t.topics[i] == text
      && t.hostSessionId == s.hostSessionId && (Good(s) ==> Good(t))
      && ((exists k :: 0 <= k < |s.players| && k !in topics) ==>
            t.phase == Topics && t.chains == s.chains)
      && ((forall k :: 0 <= k < |s.players| ==> k in topics) ==>
            t.phase != Topics && t.phase != Lobby && t.totalRounds == |s.players| - 1 && |t.chains| == |s.players|)
  {
    var topics := s.topics[i := text];
    var n := |s.players|;
    var sub := TopicCount(n, topics);
    var s1 := s.(topics := topics, outbox := s.outbox + Broadcast(s.players, Everyone(TopicProgress(sub, n))));
    if sub >= n {
      BeginPlayOutcome(s1);
    }
  }

  // --------------------------------------------------------- round ledger

  /** The bookkeeping of an open round against `base`, the chains as the
      round found them: every session that has submitted sits at some seat,
      the chains only grew, and a seat's chain for this round is one entry
      longer exactly when that seat has submitted; chains past the roster
      are untouched. */
  predicate Ledger(s: Snapshot, base: seq<Chain>) {
    && 0 < |s.players| <= |base|
    && Grows(base, s.chains)
    && s.roundSubmissions <= Sessions(s.players)
    && (forall c :: |s.players| <= c < |base| ==> s.chains[c] == base[c])
    && forall c :: 0 <= c < |s.players| ==>
         |s.chains[c].entries| == |base[c].entries|
           + (if s.players[SeatFor(|s.players|, c, s.currentRound)].sessionId in s.roundSubmissions then 1 else 0)
  }

  lemma {:induction false} SubsetCard<T>(a: set<T>, b: set<T>)
    requires a <= b
    ensures |a| <= |b|
    decreases b
  {
    if a != {} {
      var y :| y in a;
      SubsetCard(a - {y}, b - {y});
    }
  }

  lemma SubsetFull<T>(a: set<T>, b: set<T>)
    requires a <= b && |a| >= |b|
    ensures a == b
  {
    if a != b {
      var x :| x in b && x !in a;
      SubsetCard(a, b - {x});
    }
  }

  /** With distinct sessions, `N` submissions are a submission from every seat. */
  lemma {:induction false} FullRoundAllSeats(s: Snapshot)
    requires DistinctSessions(s.players) && s.roundSubmissions <= Sessions(s.players)
    requires |s.roundSubmissions| >= |s.players|
    ensures forall j :: 0 <= j < |s.players| ==> s.players[j].sessionId in s.roundSubmissions
  {
    SessionSetSize(s.players);
    SubsetFull(s.roundSubmissions, Sessions(s.players));
  }

  /** Once the round's ledger has `N` submissions, every chain of the roster
      is exactly one entry longer than the round found it. */
  lemma {:induction false} LedgerFull(s: Snapshot, base: seq<Chain>)
    requires Ledger(s, base) && DistinctSessions(s.players) && |s.roundSubmissions| >= |s.players|
    ensures forall c :: 0 <= c < |s.players| ==>
      && |s.chains[c].entries| == |base[c].entries| + 1
      && s.chains[c].entries[..|base[c].entries|] == base[c].entries
  {
    FullRoundAllSeats(s);
  }

  /** The auto-submission at the start of a round opens the ledger: each
      inactive seat has submitted and its chain is one entry longer, every
      other chain is as the round found it. */
  lemma {:induction false} LedgerAfterFill(s: Snapshot)
    requires ChainsReady(s) && 0 < |s.players| && DistinctSessions(s.players)
    ensures var filled := AutoFillFrom(s.players, s.currentRound, s.chains, {}, 0);
      Ledger(s.(chains := filled.0, roundSubmissions := filled.1), s.chains)
  {
    var n := |s.players|;
    var r := s.currentRound;
    var filled := AutoFillFrom(s.players, r, s.chains, {}, 0);
    AutoFillSubmits(s.players, r, s.chains, {}, 0);
    AutoFillAppends(s.players, r, s.chains, {}, 0);
    forall c | 0 <= c < n
      ensures |filled.0[c].entries| == |s.chains[c].entries|
                + (if s.players[SeatFor(n, c, r)].sessionId in filled.1 then 1 else 0)
    {
      FillOneChain(s, c);
    }
  }

  /** `LedgerAfterFill` for chain `c`: it gains an entry exactly when the
      seat the rotation hands it to is inactive. */
  lemma {:induction false} FillOneChain(s: Snapshot, c: int)
    requires ChainsReady(s) && DistinctSessions(s.players) && 0 <= c < |s.players|
    ensures var filled := AutoFillFrom(s.players, s.currentRound, s.chains, {}, 0);
      |filled.0[c].entries| == |s.chains[c].entries|
        + (if s.players[SeatFor(|s.players|, c, s.currentRound)].sessionId in filled.1 then 1 else 0)
  {
    var n := |s.players|;
    var r := s.currentRound;
    var filled := AutoFillFrom(s.players, r, s.chains, {}, 0);
    AutoFillSubmits(s.players, r, s.chains, {}, 0);
    AutoFillAppends(s.players, r, s.chains, {}, 0);
    assert filled.1 == set j | 0 <= j < n && Inactive(s.players[j]) :: s.players[j].sessionId;
    var j := SeatFor(n, c, r);
    ChainForOnto(n, c, r);
    if Inactive(s.players[j]) {
      assert Fills(s.players, {}, j);
      assert s.players[j].sessionId in filled.1;
      assert filled.0[c] == Extend(s.chains[c], Placeholder(r, s.players[j].name));
    } else {
      forall k | 0 <= k < n && Fills(s.players, {}, k)
        ensures ChainFor(n, k, r) != c
      {
        SeatForExactly(n, k, c, r);
      }
      assert filled.0[c] == s.chains[c];
      forall k | 0 <= k < n && Inactive(s.players[k])
        ensures s.players[k].sessionId != s.players[j].sessionId
      {
        assert k != j;
      }
      assert s.players[j].sessionId !in filled.1;
    }
  }

  /** An accepted submission keeps the ledger: the submitter's chain gains
      the one entry its seat owed, and no other chain changes. */
  lemma {:induction false} LedgerRecord(s: Snapshot, base: seq<Chain>, p: int, kind: Kind, content: string)
    requires ChainsReady(s) && Ledger(s, base) && DistinctSessions(s.players)
    requires 0 <= p < |s.players| && s.players[p].sessionId !in s.roundSubmissions
    ensures Ledger(Record(s, p, kind, content), base)
  {
    var n := |s.players|;
    var r := s.currentRound;
    var cp := ChainFor(n, p, r);
    var t := Record(s, p, kind, content);
    assert t.chains[cp].entries[..|s.chains[cp].entries|] == s.chains[cp].entries;
    assert Grows(s.chains, t.chains);
    GrowsTransitive(base, s.chains, t.chains);
    forall c | 0 <= c < n
      ensures |t.chains[c].entries| == |base[c].entries|
                + (if s.players[SeatFor(n, c, r)].sessionId in t.roundSubmissions then 1 else 0)
    {
      SeatForExactly(n, p, c, r);
    }
  }

  /** The state `startRound` leaves when the auto-submission does not
      complete the round: the filled chains, with the prompts and progress sent. */
  lemma StartRoundOpen(s: Snapshot)
    requires ChainsReady(s)
    requires |AutoFillFrom(s.players, s.currentRound, s.chains, {}, 0).1| < |s.players|
    ensures var filled := AutoFillFrom(s.players, s.currentRound, s.chains, {}, 0);
      var t := StartRoundSpec(s);
      t.players == s.players && t.currentRound == s.currentRound
      && t.chains == filled.0 && t.roundSubmissions == filled.1
  {
  }

  /** When the auto-submission completes the round, `startRound` moves the
      round index on. */
  lemma StartRoundClosed(s: Snapshot)
    requires ChainsReady(s) && s.phase == Playing
    requires |AutoFillFrom(s.players, s.currentRound, s.chains, {}, 0).1| >= |s.players|
    ensures StartRoundSpec(s).currentRound > s.currentRound
  {
    var filled := AutoFillFrom(s.players, s.currentRound, s.chains, {}, 0);
    AdvanceOutcome(s.(chains := filled.0, roundSubmissions := filled.1));
  }

  /** `startRound` opens a round on the ledger of the chains it found; when
      the auto-submission alone completes the round, every chain of the
      roster got exactly one entry before the round index moved on. */
  lemma {:induction false} StartRoundLedger(s: Snapshot)
    requires ChainsReady(s) && s.phase == Playing && 0 < |s.players| && DistinctSessions(s.players)
    ensures var t := StartRoundSpec(s);
      t.currentRound == s.currentRound ==> Ledger(t, s.chains)
    ensures var filled := AutoFillFrom(s.players, s.currentRound, s.chains, {}, 0);
      StartRoundSpec(s).currentRound != s.currentRound ==>
        forall c :: 0 <= c < |s.players| ==> |filled.0[c].entries| == |s.chains[c].entries| + 1
  {
    var n := |s.players|;
    var filled := AutoFillFrom(s.players, s.currentRound, s.chains, {}, 0);
    var s1 := s.(chains := filled.0, roundSubmissions := filled.1);
    LedgerAfterFill(s);
    if |filled.1| >= n {
      StartRoundClosed(s);
      LedgerFull(s1, s.chains);
    } else {
      StartRoundOpen(s);
      var t := StartRoundSpec(s);
      assert Ledger(s1, s.chains);
      assert t.players == s1.players && t.chains == s1.chains && t.roundSubmissions == s1.roundSubmissions;
      assert Ledger(t, s.chains);
    }
  }

  /** Across one submission the ledger is kept while the round stays open;
      and the submission that completes the round leaves every chain of the
      roster exactly one entry longer than the round found it, the entries
      it had untouched, before the round index moves on. */
  lemma {:induction false} SubmitLedger(s: Snapshot, base: seq<Chain>, sid: string, kind: Kind, content: string)
    requires ChainsReady(s) && s.phase == Playing && Ledger(s, base) && DistinctSessions(s.players)
    ensures var t := SubmitSpec(s, sid, kind, content);
      t.currentRound == s.currentRound ==> Ledger(t, base)
    ensures var t := SubmitSpec(s, sid, kind, content);
      var p := FindIndex(s.players, BySession(sid));
      t.currentRound != s.currentRound ==>
        && p >= 0
        && Grows(Record(s, p, kind, content).chains, t.chains)
        && forall c :: 0 <= c < |s.players| ==>
             && |Record(s, p, kind, content).chains[c].entries| == |base[c].entries| + 1
             && Record(s, p, kind, content).chains[c].entries[..|base[c].entries|] == base[c].entries
  {
    var p := FindIndex(s.players, BySession(sid));
    SubmitOutcome(s, sid, kind, content);
    if p >= 0 && sid !in s.roundSubmissions {
      LedgerRecord(s, base, p, kind, content);
      var s1 := Record(s, p, kind, content);
      if |s1.roundSubmissions| >= |s.players| {
        LedgerFull(s1, base);
      }
    }
  }

  // ------------------------------------------------------- game schedule

  /** A round is under way on schedule: each chain of the roster holds its
      topic and one entry per finished round, plus this round's entry once
      the seat the rotation assigns to it has submitted. */
  predicate OnSchedule(s: Snapshot) {
    && 0 < |s.players| <= |s.chains|
    && 0 <= s.currentRound < s.totalRounds
    && s.roundSubmissions <= Sessions(s.players)
    && forall c :: 0 <= c < |s.players| ==>
         |s.chains[c].entries| == 1 + s.currentRound
           + (if s.players[SeatFor(|s.players|, c, s.currentRound)].sessionId in s.roundSubmissions then 1 else 0)
  }

  /** A round about to start: every chain of the roster holds its topic and
      one entry per finished round. */
  predicate RoundStart(s: Snapshot) {
    && 0 < |s.players| <= |s.chains|
    && 0 <= s.currentRound < s.totalRounds
    && forall c :: 0 <= c < |s.players| ==> |s.chains[c].entries| == 1 + s.currentRound
  }

  /** What a schedule step leaves: the same roster and number of chains, the
      round under way on schedule, or the reveal after the last round with
      `1 + totalRounds` entries in every chain of the roster. */
  predicate ScheduleKept(s: Snapshot, t: Snapshot) {
    && t.players == s.players && |t.chains| == |s.chains| && t.totalRounds == s.totalRounds
    && (t.phase == Playing || t.phase == Reveal)
    && (t.phase == Playing ==> OnSchedule(t))
    && (t.phase == Reveal ==>
          && t.currentRound == t.totalRounds && |t.players| <= |t.chains|
          && forall c :: 0 <= c < |t.players| ==> |t.chains[c].entries| == 1 + t.totalRounds)
  }

  /** With distinct sessions, `startRound` on schedule keeps the schedule,
      through every round the auto-submission alone completes. */
  lemma {:induction false} ScheduleStartRound(s: Snapshot)
    requires ChainsReady(s) && s.phase == Playing && DistinctSessions(s.players) && RoundStart(s)
    ensures ScheduleKept(s, StartRoundSpec(s))
    decreases s.totalRounds - s.currentRound, 1
  {
    var n := |s.players|;
    var filled := AutoFillFrom(s.players, s.currentRound, s.chains, {}, 0);
    var s1 := s.(chains := filled.0, roundSubmissions := filled.1);
    StartRoundOutcome(s);
    StartRoundLedger(s);
    LedgerAfterFill(s);
    if |filled.1| >= n {
      LedgerFull(s1, s.chains);
      ScheduleAdvance(s1);
    } else {
      StartRoundOpen(s);
    }
  }

  /** Closing a round in which every chain of the roster got its entry keeps
      the schedule: the next round starts on schedule, or the reveal follows
      the last round. */
  lemma {:induction false} ScheduleAdvance(s: Snapshot)
    requires ChainsReady(s) && s.phase == Playing && DistinctSessions(s.players)
    requires 0 < |s.players| <= |s.chains| && 0 <= s.currentRound < s.totalRounds
    requires forall c :: 0 <= c < |s.players| ==> |s.chains[c].entries| == 2 + s.currentRound
    ensures ScheduleKept(s, AdvanceSpec(s))
    decreases s.totalRounds - s.currentRound, 0
  {
    var s2 := s.(currentRound := s.currentRound + 1);
    if s2.currentRound < s2.totalRounds {
      ScheduleStartRound(s2);
    }
  }

  /** With distinct sessions, every submission keeps the schedule: the
      submitter's chain gains the entry its seat owed, and the submission
      that completes the round moves the game to the next round on schedule
      or to the reveal. */
  lemma {:induction false} ScheduleSubmit(s: Snapshot, sid: string, kind: Kind, content: string)
    requires ChainsReady(s) && s.phase == Playing && DistinctSessions(s.players) && OnSchedule(s)
    ensures ScheduleKept(s, SubmitSpec(s, sid, kind, content))
  {
    var p := FindIndex(s.players, BySession(sid));
    if p >= 0 && sid !in s.roundSubmissions {
      var s1 := Record(s, p, kind, content);
      ScheduleRecord(s, p, kind, content);
      if |s1.roundSubmissions| >= |s.players| {
        FullRoundAllSeats(s1);
        ScheduleAdvance(s1);
      }
    }
  }

  /** Recording the submission of a seat that owes one keeps the round on
      schedule: it lengthens exactly the chain the rotation hands that seat. */
  lemma {:induction false} ScheduleRecord(s: Snapshot, p: int, kind: Kind, content: string)
    requires ChainsReady(s) && s.phase == Playing && DistinctSessions(s.players) && OnSchedule(s)
    requires 0 <= p < |s.players| && s.players[p].sessionId !in s.roundSubmissions
    ensures ScheduleKept(s, Record(s, p, kind, content))
  {
    var n := |s.players|;
    var r := s.currentRound;
    var s1 := Record(s, p, kind, content);
    assert s1.chains == AppendEntry(s.chains, ChainFor(n, p, r), Entry(kind, content, s.players[p].name));
    forall c | 0 <= c < n
      ensures |s1.chains[c].entries| == 1 + r
                + (if s.players[SeatFor(n, c, r)].sessionId in s1.roundSubmissions then 1 else 0)
    {
      SeatForExactly(n, p, c, r);
      var q := SeatFor(n, c, r);
      assert q != p ==> s.players[q].sessionId != s.players[p].sessionId;
    }
    assert s.players[p].sessionId in Sessions(s.players);
  }

  /** The game's length: play starts on schedule, and with at least two
      seats and distinct sessions, whenever the game reaches the reveal
      every chain holds exactly `N` entries (with `N` the number of seats). */
  lemma {:induction false} ScheduleBegin(s: Snapshot)
    requires forall k :: 0 <= k < |s.players| ==> k in s.topics
    requires |s.players| >= 2 && DistinctSessions(s.players)
    ensures var t := BeginPlay(s);
      && t.players == s.players && t.totalRounds == |s.players| - 1 && |t.chains| == |s.players|
      && (t.phase == Playing ==> OnSchedule(t))
      && (t.phase == Reveal ==> forall c :: 0 <= c < |s.players| ==> |t.chains[c].entries| == |s.players|)
  {
    var n := |s.players|;
    var s2 := s.(phase := Playing, chains := SeedChains(s.players, s.topics), currentRound := 0,
                 totalRounds := n - 1, roundSubmissions := {});
    ScheduleStartRound(s2);
  }
}
