/** One game room: the mutable record every socket handler updates in place.
    Each method does what the server's handler does to the room, step by step,
    and is proved to leave the state the matching function in module Engine
    describes. */
module Rooms {
  import opened Types
  import opened Rotation
  import opened Engine
  import opened Lifecycle

  class Room {
    const code: string
    var hostSessionId: string
    var players: seq<Player>
    var phase: Phase
    var topics: map<int, string>
    var chains: seq<Chain>
    var currentRound: int
    var totalRounds: int
    var roundSubmissions: set<string>
    var revealChainIdx: int
    var revealStepIdx: int
    /** Every message sent on this room's behalf, oldest first. */
    var outbox: seq<Emit>

    function State(): Snapshot
      reads this
    {
      Snapshot(code, hostSessionId, players, phase, topics, chains, currentRound, totalRounds,
                roundSubmissions, revealChainIdx, revealStepIdx, outbox)
    }

    predicate Valid()
      reads this
    {
      Good(State())
    }

    /** The record `createRoom` stores: the creator is the only player and the host. */
    constructor (code: string, sock: string, sid: string, name: string)
      ensures Valid()
      ensures State() == Snapshot(code, sid, [Player(Some(sock), sid, name, true, false)], Lobby,
                                   map[], [], 0, 0, {}, 0, 0, [])
    {
      this.code := code;
      hostSessionId := sid;
      players := [Player(Some(sock), sid, name, true, false)];
      phase := Lobby;
      topics := map[];
      chains := [];
      currentRound, totalRounds := 0, 0;
      roundSubmissions := {};
      revealChainIdx, revealStepIdx := 0, 0;
      outbox := [];
    }

    /** `broadcastLobby`. */
    method BroadcastLobby()
      modifies this
      ensures State() == old(State()).(outbox := old(outbox) + LobbyBroadcast(old(State())))
    {
      outbox := outbox + Broadcast(players, RoomStateTo(code, players, phase, hostSessionId));
    }

    /** `broadcastPlayersStatus`. */
    method BroadcastStatus()
      modifies this
      ensures State() == old(State()).(outbox := old(outbox) + StatusBroadcast(old(State())))
    {
      outbox := outbox + Broadcast(players, Everyone(PlayersStatus(Views(players))));
    }

    /** `autoSubmitForInactive`: walk the roster once, submitting the round's
        placeholder for every kicked or disconnected seat not yet submitted. */
    method AutoSubmitForInactive()
      requires |players| <= |chains|
      modifies this
      ensures var r := AutoFillFrom(old(players), old(currentRound), old(chains), old(roundSubmissions), 0);
        State() == old(State()).(chains := r.0, roundSubmissions := r.1)
    {
      var i := 0;
      while i < |players|
        invariant 0 <= i <= |players| <= |chains|
        invariant State() == old(State()).(chains := chains, roundSubmissions := roundSubmissions)
        invariant AutoFillFrom(players, currentRound, chains, roundSubmissions, i)
               == AutoFillFrom(old(players), old(currentRound), old(chains), old(roundSubmissions), 0)
      {
        var p := players[i];
        if (p.kicked || !p.online) && p.sessionId !in roundSubmissions {
          var n := |players|;
          var round := currentRound;
          var isDraw := round % 2 == 0;
          var c := ChainFor(n, i, round);
          chains := AppendEntry(chains, c, Entry(if isDraw then Drawing else Guess,
                                                 if isDraw then "" else "(時間切れ)", p.name));
          roundSubmissions := roundSubmissions + {p.sessionId};
        }
        i := i + 1;
      }
    }

    /** `buildChains`: one chain per player seeded with its topic; round 0 of
        `N - 1`; no submissions. */
    method BuildChains()
      requires forall i :: 0 <= i < |players| ==> i in topics
      modifies this
      ensures State() == old(State()).(chains := SeedChains(old(players), old(topics)), currentRound := 0,
                                       totalRounds := |players| - 1, roundSubmissions := {})
    {
      var n := |players|;
      chains := [];
      var i := 0;
      while i < n
        invariant 0 <= i <= n == |players|
        invariant State() == old(State()).(chains := chains)
        invariant chains == SeedChains(players[..i], topics)
      {
        var p := players[i];
        chains := chains + [Chain(i, p.name, [Entry(Topic, topics[i], p.name)])];
        i := i + 1;
      }
      assert players[..n] == players;
      currentRound := 0;
      totalRounds := n - 1;
      roundSubmissions := {};
    }

    /** `startRound`. */
    method StartRound()
      requires ChainsReady(State())
      modifies this
      ensures State() == StartRoundSpec(old(State()))
      decreases totalRounds - currentRound, 1
    {
      roundSubmissions := {};
      AutoSubmitForInactive();
      var n := |players|;
      var sub := |roundSubmissions|;
      if sub >= n {
        Advance();
        return;
      }
      SendPrompts();
      outbox := outbox + Broadcast(players, Everyone(RoundProgress(sub, n)));
    }

    /** The prompt loop of `startRound`: a `yourTurn` to every connected,
        unkicked seat that has not submitted, showing the last entry of the
        chain that seat works on this round. */
    method SendPrompts()
      requires ChainsReady(State())
      modifies this
      ensures State() == old(State()).(outbox := old(outbox) + Prompts(old(State()), 0))
    {
      ghost var s := State();
      var n := |players|;
      var round := currentRound;
      var isDraw := round % 2 == 0;
      var i := 0;
      while i < n
        invariant 0 <= i <= n == |players|
        invariant players == s.players && chains == s.chains && roundSubmissions == s.roundSubmissions
        invariant currentRound == round == s.currentRound && totalRounds == s.totalRounds
        invariant State() == s.(outbox := outbox)
        invariant outbox + Prompts(s, i) == s.outbox + Prompts(s, 0)
      {
        var p := players[i];
        ghost var before := outbox;
        ghost var mine := if Awaited(s, i) then [Emit(s.players[i].socketId.value, PromptFor(s, i))] else [];
        assert Prompts(s, i) == mine + Prompts(s, i + 1);
        if p.socketId.Some? && !p.kicked && p.sessionId !in roundSubmissions {
          var c := ChainFor(n, i, round);
          var last := chains[c].entries[|chains[c].entries| - 1];
          outbox := outbox + [Emit(p.socketId.value, YourTurn(if isDraw then Drawing else Guess,
                                                               last.content, last.kind, round + 1, totalRounds))];
          assert Awaited(s, i);
          assert YourTurn(if isDraw then Drawing else Guess, last.content, last.kind, round + 1, totalRounds)
              == PromptFor(s, i);
        }
        assert outbox == before + mine;
        assert outbox + Prompts(s, i + 1) == before + (mine + Prompts(s, i + 1));
        i := i + 1;
      }
    }

    /** The round barrier after the `N`-th submission (lines shared by
        `startRound` and `handleSubmission`). */
    method Advance()
      requires ChainsReady(State())
      modifies this
      ensures State() == AdvanceSpec(old(State()))
      decreases totalRounds - currentRound, 0
    {
      currentRound := currentRound + 1;
      if currentRound >= totalRounds {
        phase := Reveal;
        outbox := outbox + Broadcast(players, AllRevealedTo(chains, hostSessionId));
      } else {
        StartRound();
      }
    }

    /** `handleSubmission`. */
    method HandleSubmission(sid: string, kind: Kind, content: string)
      requires ChainsReady(State())
      modifies this
      ensures State() == SubmitSpec(old(State()), sid, kind, content)
    {
      var pIdx := FindIndex(players, BySession(sid));
      if pIdx == -1 || sid in roundSubmissions {
        return;
      }
      RecordEntry(pIdx, kind, content);
      if |roundSubmissions| >= |players| {
        Advance();
      }
    }

    /** The recording half of `handleSubmission` for the player at seat `p`. */
    method RecordEntry(p: int, kind: Kind, content: string)
      requires ChainsReady(State()) && 0 <= p < |players|
      modifies this
      ensures State() == Record(old(State()), p, kind, content)
    {
      var n := |players|;
      var c := ChainFor(n, p, currentRound);
      chains := AppendEntry(chains, c, Entry(kind, content, players[p].name));
      roundSubmissions := roundSubmissions + {players[p].sessionId};
      var sub := |roundSubmissions|;
      var sock := players[p].socketId;
      if sock.Some? {
        outbox := outbox + [Emit(sock.value, WaitingForOthers(sub, n))];
      }
      outbox := outbox + Broadcast(players, Everyone(RoundProgress(sub, n)));
    }
  
    /** `startGame`, once the caller is known to be the host: refused below
        three players, otherwise every seat is asked for a topic. */
    method StartGame() returns (ok: bool)
      requires Valid()
      modifies this
      ensures Valid() && ok == (|old(players)| >= MinPlayers)
      ensures State() == StartGameSpec(old(State()))
    {
      if |players| < MinPlayers {
        return false;
      }
      phase := Topics;
      topics := map[];
      outbox := outbox + Broadcast(players, EnterTopicTo(hostSessionId));
      return true;
    }

    /** Record seat `i`'s topic, broadcast the topic progress, and start play
        once every seat has one (shared by `submitTopic` and `kickPlayer`). */
    method FinishTopic(i: int, text: string)
      requires Valid() && phase == Topics && 0 <= i < |players|
      modifies this
      ensures Valid() && State() == Engine.FinishTopic(old(State()), i, text)
    {
      ghost var s0 := State();
      TopicOutcome(s0, i, text);
      var n := |players|;
      var sub := TopicCount(n, topics[i := text]);
      var msgs := Broadcast(players, Everyone(TopicProgress(sub, n)));
      topics, outbox := topics[i := text], outbox + msgs;
      assert State() == s0.(topics := s0.topics[i := text], outbox := s0.outbox + msgs);
      if sub >= n {
        BeginPlay();
      }
    }

    /** `phase = 'playing'; buildChains(room); startRound(room)`. */
    method BeginPlay()
      requires forall i :: 0 <= i < |players| ==> i in topics
      modifies this
      ensures State() == Engine.BeginPlay(old(State()))
    {
      phase := Playing;
      BuildChains();
      StartRound();
    }

    /** `submitTopic` from connection `sock` (the topic is trimmed). */
    method SubmitTopic(sock: string, topic: string)
      requires Valid()
      modifies this
      ensures Valid() && State() == SubmitTopicSpec(old(State()), sock, topic)
    {
      if phase != Topics {
        return;
      }
      var i := FindIndex(players, BySocket(sock));
      if i == -1 {
        return;
      }
      outbox := outbox + [Emit(sock, TopicSubmitted)];
      FinishTopic(i, Trim(topic));
    }

    /** `submitDrawing` and `submitGuess` from connection `sock` (the server
        trims a guess before it gets here). */
    method SubmitEntry(sock: string, kind: Kind, content: string)
      requires Valid()
      modifies this
      ensures Valid() && State() == SubmitEntrySpec(old(State()), sock, kind, content)
    {
      if phase != Playing {
        return;
      }
      var i := FindIndex(players, BySocket(sock));
      if i == -1 {
        return;
      }
      SubmitOutcome(State(), players[i].sessionId, kind, content);
      HandleSubmission(players[i].sessionId, kind, content);
    }

    /** `startReveal`. */
    method StartReveal()
      requires Valid()
      modifies this
      ensures Valid() && State() == StartRevealSpec(old(State()))
    {
      RevealKeeps(State());
      if phase != Reveal {
        return;
      }
      revealChainIdx, revealStepIdx := 0, 0;
      outbox := outbox + Broadcast(players, StartChainRevealTo(0, |chains|, chains[0], hostSessionId));
    }

    /** `nextRevealStep`. */
    method NextRevealStep()
      requires Valid()
      modifies this
      ensures Valid() && State() == NextRevealStepSpec(old(State()))
    {
      RevealKeeps(State());
      if phase != Reveal || revealChainIdx >= |chains| {
        return;
      }
      var c := chains[revealChainIdx];
      revealStepIdx := revealStepIdx + 1;
      if revealStepIdx >= |c.entries| {
        outbox := outbox + Broadcast(players, ChainCompleteTo(revealChainIdx, c, revealChainIdx < |chains| - 1, hostSessionId));
        return;
      }
      outbox := outbox + Broadcast(players, RevealStepTo(revealChainIdx, revealStepIdx, c, hostSessionId));
    }

    /** `nextChain`. */
    method NextChain()
      requires Valid()
      modifies this
      ensures Valid() && State() == NextChainSpec(old(State()))
    {
      RevealKeeps(State());
      if phase != Reveal {
        return;
      }
      revealChainIdx := revealChainIdx + 1;
      if revealChainIdx >= |chains| {
        outbox := outbox + Broadcast(players, AllRevealedTo(chains, hostSessionId));
        return;
      }
      revealStepIdx := 0;
      outbox := outbox + Broadcast(players, StartChainRevealTo(revealChainIdx, |chains|, chains[revealChainIdx], hostSessionId));
    }

    /** `newGame`. */
    method NewGame()
      requires Valid()
      modifies this
      ensures Valid() && State() == NewGameSpec(old(State()))
    {
      var msgs := Broadcast(players, EnterTopicTo(hostSessionId));
      phase, topics, chains, currentRound, roundSubmissions, revealChainIdx, revealStepIdx, outbox :=
        Topics, map[], [], 0, {}, 0, 0, outbox + msgs;
    }

    /** `backToLobby`. */
    method BackToLobby()
      requires Valid()
      modifies this
      ensures Valid() && State() == BackToLobbySpec(old(State()))
    {
      ghost var s0 := State();
      players, phase, topics, chains, currentRound, roundSubmissions := Unkicked(players), Lobby, map[], [], 0, {};
      ghost var s1 := State();
      assert s1 == s0.(players := Unkicked(s0.players), phase := Lobby, topics := map[], chains := [],
                       currentRound := 0, roundSubmissions := {});
      BroadcastLobby();
      assert State() == s1.(outbox := s1.outbox + LobbyBroadcast(s1));
    }

    /** `restoreState` for seat `j`: what a returning player missed. */
    method Restore(j: int)
      requires 0 <= j < |players| && (phase == Playing ==> ChainsReady(State()))
      modifies this
      ensures State() == old(State()).(outbox := old(outbox) + RestoreEmits(old(State()), j))
    {
      var p := players[j];
      if p.socketId.None? {
        return;
      }
      var sock := p.socketId.value;
      match phase
      case Lobby =>
        BroadcastLobby();
      case Topics =>
        if j in topics {
          outbox := outbox + [Emit(sock, TopicSubmitted),
                              Emit(sock, TopicProgress(TopicCount(|players|, topics), |players|))];
        } else {
          outbox := outbox + [Emit(sock, EnterTopic(p.sessionId == hostSessionId))];
        }
      case Playing =>
        if p.sessionId in roundSubmissions {
          outbox := outbox + [Emit(sock, WaitingForOthers(|roundSubmissions|, |players|))];
        } else {
          var round := currentRound;
          var c := ChainFor(|players|, j, round);
          var last := chains[c].entries[|chains[c].entries| - 1];
          outbox := outbox + [Emit(sock, YourTurn(if round % 2 == 0 then Drawing else Guess,
                                                  last.content, last.kind, round + 1, totalRounds))];
        }
      case Reveal =>
        outbox := outbox + [Emit(sock, AllRevealed(chains, p.sessionId == hostSessionId))];
    }

    /** `reconnectSession` once seat `j` is found: back online on `sock`. */
    method Reconnect(j: int, sock: string, name: string)
      requires Valid() && 0 <= j < |players|
      modifies this
      ensures Valid() && State() == ReconnectSpec(old(State()), j, sock, name)
    {
      ReconnectOutcome(State(), j, sock, name);
      ReconnectedShape(State(), j, sock, name);
      MarkOnline(j, sock, name);
      Restore(j);
    }

    /** Seat `j` back online on `sock`, and everyone told. */
    method MarkOnline(j: int, sock: string, name: string)
      requires 0 <= j < |players|
      modifies this
      ensures State() == Reconnected(old(State()), j, sock, name)
    {
      players := players[j := players[j].(socketId := Some(sock), online := true)];
      outbox := outbox + Broadcast(players, Everyone(PlayerReconnected(name, OnlineCount(players))));
      BroadcastStatus();
    }

    /** The mid-game branch of `joinRoom` for dropped seat `j`: the seat takes
        the new connection and session; the round's submissions and the host
        session are left as they were. */
    method Rejoin(j: int, sock: string, sid: string, name: string)
      requires Valid() && 0 <= j < |players|
      modifies this
      ensures Valid() && State() == Lifecycle.Rejoin(old(State()), j, sock, sid, name)
    {
      players := players[j := players[j].(sessionId := sid)];
      Reconnect(j, sock, name);
    }

    /** `joinRoom` once the room is found. */
    method Join(sock: string, sid: string, name: string) returns (reply: JoinReply)
      requires Valid()
      modifies this
      ensures Valid() && reply == JoinReplyFor(old(State()), name)
      ensures State() == JoinSpec(old(State()), sock, sid, name)
    {
      if phase != Lobby {
        var j := FindIndex(players, Dropped(name));
        if j == -1 {
          return GameRunning;
        }
        Rejoin(j, sock, sid, name);
        return Rejoined;
      }
      JoinLobbyOutcome(State(), sock, sid, name);
      if |players| >= MaxPlayers {
        return RoomFull;
      }
      if FindIndex(players, ByName(name)) >= 0 {
        return NameTaken;
      }
      players := players + [Player(Some(sock), sid, name, true, false)];
      BroadcastLobby();
      return Joined;
    }

    /** `leaveRoom` once the caller's seat `j` is found.  An emptied room is
        deleted by the caller. */
    method Leave(j: int)
      requires Valid() && 0 <= j < |players|
      modifies this
      ensures Valid() && State() == LeaveSpec(old(State()), j)
    {
      LeaveOutcome(State(), j);
      var wasHost := players[j].sessionId == hostSessionId;
      players := players[..j] + players[j + 1..];
      if |players| == 0 {
        return;
      }
      if wasHost {
        hostSessionId := players[0].sessionId;
      }
      if phase == Lobby {
        BroadcastLobby();
      } else {
        BroadcastStatus();
      }
    }

    /** `disconnect` once seat `j` is found. */
    method Disconnect(j: int)
      requires Valid() && 0 <= j < |players|
      modifies this
      ensures Valid() && State() == DisconnectSpec(old(State()), j)
    {
      DisconnectOutcome(State(), j);
      var name := players[j].name;
      players := players[j := players[j].(socketId := None, online := false)];
      outbox := outbox + Broadcast(players, Everyone(PlayerWentOffline(name, OnlineCount(players))));
      BroadcastStatus();
    }

    /** `kickPlayer` once the caller's room is found.  An emptied room is
        deleted by the caller. */
    method Kick(sid: string) returns (reply: KickReply)
      requires Valid()
      modifies this
      ensures Valid() && reply == KickReplyFor(old(State()), sid)
      ensures State() == KickSpec(old(State()), sid)
    {
      var i := FindIndex(players, BySession(sid));
      if i == -1 {
        return NoSuchPlayer;
      }
      if players[i].online {
        return PlayerOnline;
      }
      if phase == Lobby {
        KickLobbyOutcome(State(), sid);
        KickFromLobby(sid);
      } else {
        KickGameOutcome(State(), sid);
        KickInGame(i, sid);
      }
      return KickOk;
    }

    /** The lobby branch of `kickPlayer`: the seat is removed. */
    method KickFromLobby(sid: string)
      modifies this
      ensures State() == Lifecycle.KickFromLobby(old(State()), sid)
    {
      players := Without(players, sid);
      if |players| == 0 {
        return;
      }
      if hostSessionId == sid {
        hostSessionId := players[0].sessionId;
      }
      BroadcastLobby();
    }

    /** The in-game branch of `kickPlayer` for seat `i`: flag the seat and
        fill in what it owes. */
    method KickInGame(i: int, sid: string)
      requires Valid() && phase != Lobby && 0 <= i < |players| && FindIndex(players, BySession(sid)) == i
      modifies this
      ensures State() == Lifecycle.KickInGame(old(State()), i, sid)
    {
      players := players[i := players[i].(kicked := true)];
      SameSessionsSameIndex(old(players), players, sid);
      KickFillOutcome(State(), i, sid);
      if phase == Topics && i !in topics {
        FinishTopic(i, LeftTopic);
      } else if phase == Playing && sid !in roundSubmissions {
        HandleSubmission(sid, TaskKind(currentRound), AutoSubmitContent(currentRound));
      }
      BroadcastStatus();
    }
  }
}
