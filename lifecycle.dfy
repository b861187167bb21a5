/** The handlers around a game: starting it, the host-driven reveal, the two
    resets, and roster changes (join, rejoin, reconnect, leave, kick,
    disconnect).  As in module Engine, each is a function from the room's
    snapshot to the snapshot it leaves behind; the lemmas state what the
    handlers guarantee. */
module Lifecycle {
  import opened Types
  import opened Rotation
  import opened Engine

  /** The smallest roster `startGame` accepts, and the largest `joinRoom` fills. */
  const MinPlayers := 3
  const MaxPlayers := 8

  /** The topic a seat is given when it is kicked before writing one. */
  const LeftTopic := "(退室)"

  /** The answers `kickPlayer` gives once the caller's room is found. */
  datatype KickReply = KickOk | NoSuchPlayer | PlayerOnline

  /** The answers `joinRoom` gives once the room is found. */
  datatype JoinReply = Joined | Rejoined | GameRunning | RoomFull | NameTaken

  /** A player holds a connection exactly when flagged online. */
  predicate Connected(ps: seq<Player>) {
    forall j :: 0 <= j < |ps| ==> (ps[j].socketId.Some? <==> ps[j].online)
  }

  /** The host session belongs to a seat of the room. */
  predicate HostPresent(s: Snapshot) {
    exists j :: 0 <= j < |s.players| && IsHost(s, s.players[j])
  }

  // ---------------------------------------------------------------- start

  /** `startGame` on the host's room: refused below three players; otherwise
      every seat is asked for a topic. */
  function StartGameSpec(s: Snapshot): (t: Snapshot)
  {
    if |s.players| < MinPlayers then s
    else
      s.(phase := Topics, topics := map[],
         outbox := s.outbox + Broadcast(s.players, EnterTopicTo(s.hostSessionId)))
  }

  /** `startGame` refuses a room of fewer than three; otherwise it clears the
      topics, enters `topics`, keeps the roster and the host, and asks every
      connected seat for a topic, telling only the host it is the host. */
  lemma StartGameOutcome(s: Snapshot)
    ensures var t := StartGameSpec(s);
      && (|s.players| < MinPlayers ==> t == s)
      && (|s.players| >= MinPlayers ==>
            && t.phase == Topics && t.topics == map[] && t.players == s.players
            && t.hostSessionId == s.hostSessionId && t.chains == s.chains
            && Extends(s.outbox, t.outbox)
            && forall j :: 0 <= j < |s.players| && s.players[j].socketId.Some? ==>
                 Emit(s.players[j].socketId.value, EnterTopic(IsHost(s, s.players[j]))) in t.outbox)
  {
    if |s.players| >= MinPlayers {
      var t := StartGameSpec(s);
      assert t.outbox[..|s.outbox|] == s.outbox;
      forall j | 0 <= j < |s.players| && s.players[j].socketId.Some?
        ensures Emit(s.players[j].socketId.value, EnterTopic(IsHost(s, s.players[j]))) in t.outbox
      {
        var e := Emit(s.players[j].socketId.value, EnterTopicTo(s.hostSessionId)(s.players[j]));
        assert e in Broadcast(s.players, EnterTopicTo(s.hostSessionId));
      }
    }
  }

  /** A returning player who has not written a topic yet is asked for one
      again, with the host flag, exactly as `startGame` and `newGame` asked. */
  lemma RestoreRepeatsEnterTopic(s: Snapshot, j: int)
    requires 0 <= j < |s.players| && s.players[j].socketId.Some?
    ensures var t := StartGameSpec(s);
      var e := Emit(s.players[j].socketId.value, EnterTopic(IsHost(s, s.players[j])));
      |s.players| >= MinPlayers ==> RestoreEmits(t, j) == [e] && e in t.outbox
    ensures var t := NewGameSpec(s);
      var e := Emit(s.players[j].socketId.value, EnterTopic(IsHost(s, s.players[j])));
      RestoreEmits(t, j) == [e] && e in t.outbox
  {
    var e := Emit(s.players[j].socketId.value, EnterTopicTo(s.hostSessionId)(s.players[j]));
    assert e in Broadcast(s.players, EnterTopicTo(s.hostSessionId));
  }

  // --------------------------------------------------------------- reveal

  /** `startReveal`: show the first chain's topic to everyone. */
  function StartRevealSpec(s: Snapshot): (t: Snapshot)
    requires Good(s)
  {
    if s.phase != Reveal then s
    else
      s.(revealChainIdx := 0, revealStepIdx := 0,
         outbox := s.outbox + Broadcast(s.players, StartChainRevealTo(0, |s.chains|, s.chains[0], s.hostSessionId)))
  }

  /** `nextRevealStep`: show the next entry of the current chain, or report
      the chain complete once its entries are exhausted. */
  function NextRevealStepSpec(s: Snapshot): (t: Snapshot)
    requires Good(s)
  {
    if s.phase != Reveal || s.revealChainIdx >= |s.chains| then s
    else
      var idx := s.revealChainIdx;
      var c := s.chains[idx];
      var step := s.revealStepIdx + 1;
      if step >= |c.entries| then
        s.(revealStepIdx := step,
           outbox := s.outbox + Broadcast(s.players, ChainCompleteTo(idx, c, idx < |s.chains| - 1, s.hostSessionId)))
      else
        s.(revealStepIdx := step,
           outbox := s.outbox + Broadcast(s.players, RevealStepTo(idx, step, c, s.hostSessionId)))
  }

  /** `nextChain`: move to the next chain and show its topic, or show all
      chains once the last has been revealed. */
  function NextChainSpec(s: Snapshot): (t: Snapshot)
    requires Good(s)
  {
    if s.phase != Reveal then s
    else
      var idx := s.revealChainIdx + 1;
      if idx >= |s.chains| then
        s.(revealChainIdx := idx,
           outbox := s.outbox + Broadcast(s.players, AllRevealedTo(s.chains, s.hostSessionId)))
      else
        s.(revealChainIdx := idx, revealStepIdx := 0,
           outbox := s.outbox + Broadcast(s.players, StartChainRevealTo(idx, |s.chains|, s.chains[idx], s.hostSessionId)))
  }

  /** The fields the reveal handlers never touch. */
  predicate RevealOnly(s: Snapshot, t: Snapshot) {
    && t.players == s.players && t.hostSessionId == s.hostSessionId && t.phase == s.phase
    && t.chains == s.chains && t.topics == s.topics && t.currentRound == s.currentRound
    && t.totalRounds == s.totalRounds && t.roundSubmissions == s.roundSubmissions
    && Extends(s.outbox, t.outbox)
  }

  /** The reveal handlers only move the cursor and send messages, keep the
      room's invariant, and do nothing outside `reveal`.  `startReveal` puts
      the cursor on the first entry of the first chain and `nextChain` on the
      first entry of the next one. */
  lemma RevealKeeps(s: Snapshot)
    requires Good(s)
    ensures var t := StartRevealSpec(s);
      RevealOnly(s, t) && Good(t) && (s.phase != Reveal ==> t == s)
      && (s.phase == Reveal ==> t.revealChainIdx == 0 && t.revealStepIdx == 0)
    ensures var t := NextRevealStepSpec(s);
      && RevealOnly(s, t) && Good(t) && (s.phase != Reveal || s.revealChainIdx >= |s.chains| ==> t == s)
      && (s.phase == Reveal && s.revealChainIdx < |s.chains| ==>
            t.revealChainIdx == s.revealChainIdx && t.revealStepIdx == s.revealStepIdx + 1)
    ensures var t := NextChainSpec(s);
      && RevealOnly(s, t) && Good(t) && (s.phase != Reveal ==> t == s)
      && (s.phase == Reveal ==> t.revealChainIdx == s.revealChainIdx + 1)
      && (s.phase == Reveal && t.revealChainIdx < |s.chains| ==> t.revealStepIdx == 0)
      && (s.phase == Reveal && t.revealChainIdx >= |s.chains| ==> t.revealStepIdx == s.revealStepIdx)
  {
    var t1 := StartRevealSpec(s);
    assert t1.outbox[..|s.outbox|] == s.outbox;
    var t2 := NextRevealStepSpec(s);
    assert t2.outbox[..|s.outbox|] == s.outbox;
    var t3 := NextChainSpec(s);
    assert t3.outbox[..|s.outbox|] == s.outbox;
  }

  /** What one `nextRevealStep` shows while the current chain has entries
      left: the entry at the new step, flagged last exactly at the chain's
      final entry, sent to every connected player, the host marked as such. */
  lemma {:induction false} RevealStepShows(s: Snapshot, j: int)
    requires Good(s) && s.phase == Reveal && 0 <= s.revealChainIdx < |s.chains|
    requires s.revealStepIdx + 1 < |s.chains[s.revealChainIdx].entries|
    requires 0 <= j < |s.players| && s.players[j].socketId.Some?
    ensures var c := s.chains[s.revealChainIdx];
      var step := s.revealStepIdx + 1;
      && NextRevealStepSpec(s).revealStepIdx == step
      && Emit(s.players[j].socketId.value,
              RevealStep(s.revealChainIdx, step, |c.entries|, c.entries[step], step == |c.entries| - 1,
                         c.topicPlayerName, c.entries[0].content, IsHost(s, s.players[j])))
         in NextRevealStepSpec(s).outbox
  {
    var c := s.chains[s.revealChainIdx];
    var mk := RevealStepTo(s.revealChainIdx, s.revealStepIdx + 1, c, s.hostSessionId);
    var b := Broadcast(s.players, mk);
    assert NextRevealStepSpec(s).outbox == s.outbox + b;
    assert Emit(s.players[j].socketId.value, mk(s.players[j])) in b;
  }

  /** Past the last entry `nextRevealStep` sends the whole chain instead,
      with `hasMoreChains` exactly when a later chain exists. */
  lemma {:induction false} ChainCompleteShows(s: Snapshot, j: int)
    requires Good(s) && s.phase == Reveal && 0 <= s.revealChainIdx < |s.chains|
    requires s.revealStepIdx + 1 >= |s.chains[s.revealChainIdx].entries|
    requires 0 <= j < |s.players| && s.players[j].socketId.Some?
    ensures NextRevealStepSpec(s).revealStepIdx == s.revealStepIdx + 1
    ensures Emit(s.players[j].socketId.value,
                 ChainComplete(s.revealChainIdx, s.chains[s.revealChainIdx], s.revealChainIdx < |s.chains| - 1,
                               IsHost(s, s.players[j])))
            in NextRevealStepSpec(s).outbox
  {
    var idx := s.revealChainIdx;
    var mk := ChainCompleteTo(idx, s.chains[idx], idx < |s.chains| - 1, s.hostSessionId);
    NextStepCompletes(s);
    assert Emit(s.players[j].socketId.value, mk(s.players[j])) in Broadcast(s.players, mk);
  }

  /** Past the last entry of the current chain, `nextRevealStep` moves the
      step on and broadcasts the chain. */
  lemma NextStepCompletes(s: Snapshot)
    requires Good(s) && s.phase == Reveal && 0 <= s.revealChainIdx < |s.chains|
    requires s.revealStepIdx + 1 >= |s.chains[s.revealChainIdx].entries|
    ensures var idx := s.revealChainIdx;
      NextRevealStepSpec(s) == s.(revealStepIdx := s.revealStepIdx + 1,
        outbox := s.outbox + Broadcast(s.players, ChainCompleteTo(idx, s.chains[idx], idx < |s.chains| - 1, s.hostSessionId)))
  {
  }

  /** `k` presses of "next step". */
  function Steps(s: Snapshot, k: nat): (t: Snapshot)
    requires Good(s)
    ensures Good(t)
    decreases k
  {
    if k == 0 then s
    else
      RevealKeeps(s);
      Steps(NextRevealStepSpec(s), k - 1)
  }

  /** Pressing "next step" `k` times on a chain being revealed advances the
      step cursor by exactly `k`, stays on the same chain and changes nothing
      but the cursor and the messages; so after `startReveal` or `nextChain`
      the `k`-th press shows entry `k` of the current chain. */
  lemma {:induction false} RevealWalk(s: Snapshot, k: nat)
    requires Good(s) && s.phase == Reveal && s.revealChainIdx < |s.chains|
    ensures var t := Steps(s, k);
      && t.revealStepIdx == s.revealStepIdx + k && t.revealChainIdx == s.revealChainIdx
      && RevealOnly(s, t)
    decreases k
  {
    if k > 0 {
      var s1 := NextRevealStepSpec(s);
      RevealKeeps(s);
      RevealWalk(s1, k - 1);
      var t := Steps(s1, k - 1);
      assert t.outbox[..|s1.outbox|] == s1.outbox;
      assert t.outbox[..|s.outbox|] == t.outbox[..|s1.outbox|][..|s.outbox|];
    }
  }

  // --------------------------------------------------------------- resets

  /** `newGame`: straight back to topic entry.  `totalRounds` is left as it
      was (the next game recomputes it), and the roster, kicked seats
      included, is kept. */
  function NewGameSpec(s: Snapshot): (t: Snapshot)
  {
    s.(phase := Topics, topics := map[], chains := [], currentRound := 0, roundSubmissions := {},
       revealChainIdx := 0, revealStepIdx := 0,
       outbox := s.outbox + Broadcast(s.players, EnterTopicTo(s.hostSessionId)))
  }

  lemma NewGameOutcome(s: Snapshot)
    ensures var t := NewGameSpec(s);
      && t.phase == Topics && t.topics == map[] && t.chains == [] && t.currentRound == 0
      && t.roundSubmissions == {} && t.revealChainIdx == 0 && t.revealStepIdx == 0
      && t.players == s.players && t.hostSessionId == s.hostSessionId && t.totalRounds == s.totalRounds
      && Good(t) && Extends(s.outbox, t.outbox)
      && forall j :: 0 <= j < |s.players| && s.players[j].socketId.Some? ==>
           Emit(s.players[j].socketId.value, EnterTopic(IsHost(s, s.players[j]))) in t.outbox
  {
    var t := NewGameSpec(s);
    assert t.outbox[..|s.outbox|] == s.outbox;
    forall j | 0 <= j < |s.players| && s.players[j].socketId.Some?
      ensures Emit(s.players[j].socketId.value, EnterTopic(IsHost(s, s.players[j]))) in t.outbox
    {
      var e := Emit(s.players[j].socketId.value, EnterTopicTo(s.hostSessionId)(s.players[j]));
      assert e in Broadcast(s.players, EnterTopicTo(s.hostSessionId));
    }
  }

  function NotKicked(): Player -> bool {
    (p: Player) => !p.kicked
  }

  /** `players.filter(p => !p.kicked)`. */
  function Unkicked(ps: seq<Player>): (r: seq<Player>)
    ensures |r| <= |ps|
    ensures forall q :: q in r <==> q in ps && !q.kicked
  {
    Filter(ps, NotKicked())
  }

  /** Dropping the kicked seats keeps the others in roster order: the filter
      of a joined roster is the join of the filtered parts, and one seat
      stays exactly when it is not kicked. */
  lemma UnkickedKeepsOrder(a: seq<Player>, b: seq<Player>)
    ensures Unkicked(a + b) == Unkicked(a) + Unkicked(b)
    ensures |a| == 1 ==> Unkicked(a) == (if a[0].kicked then [] else a)
  {
    FilterAppend(a, b, NotKicked());
  }

  /** `backToLobby`: drop the kicked seats, clear the game, show the lobby.
      The reveal cursor is left as it was. */
  function BackToLobbySpec(s: Snapshot): (t: Snapshot)
  {
    var s1 := s.(players := Unkicked(s.players), phase := Lobby, topics := map[], chains := [],
                 currentRound := 0, roundSubmissions := {});
    s1.(outbox := s1.outbox + LobbyBroadcast(s1))
  }

  lemma BackToLobbyOutcome(s: Snapshot)
    requires Good(s)
    ensures var t := BackToLobbySpec(s);
      && t.phase == Lobby && t.topics == map[] && t.chains == [] && t.currentRound == 0
      && t.roundSubmissions == {} && t.hostSessionId == s.hostSessionId
      && t.players == Unkicked(s.players)
      && (forall q :: q in t.players <==> q in s.players && !q.kicked)
      && Good(t) && Extends(s.outbox, t.outbox)
  {
    var t := BackToLobbySpec(s);
    assert t.outbox[..|s.outbox|] == s.outbox;
  }

  // ----------------------------------------------------------- membership

  /** `room.players.splice(j, 1)`. */
  function Remove(ps: seq<Player>, j: int): (r: seq<Player>)
    requires 0 <= j < |ps|
    ensures |r| == |ps| - 1
    ensures forall k :: 0 <= k < j ==> r[k] == ps[k]
    ensures forall k :: j <= k < |r| ==> r[k] == ps[k + 1]
  {
    ps[..j] + ps[j + 1..]
  }

  /** `leaveRoom` on the caller's seat `j`.  An emptied room is deleted by
      the caller; otherwise the first remaining seat inherits the host role
      when the host left, and the roster is re-broadcast. */
  function LeaveSpec(s: Snapshot, j: int): (t: Snapshot)
    requires 0 <= j < |s.players|
  {
    var s1 := Left(s, j);
    if s1.players == [] then s1
    else s1.(outbox := s1.outbox + (if s1.phase == Lobby then LobbyBroadcast(s1) else StatusBroadcast(s1)))
  }

  /** A departure short of its broadcast: the seat goes, and a departing host
      hands over to the first remaining seat. */
  function Left(s: Snapshot, j: int): Snapshot
    requires 0 <= j < |s.players|
  {
    var ps := Remove(s.players, j);
    s.(players := ps, hostSessionId := if ps != [] && IsHost(s, s.players[j]) then ps[0].sessionId else s.hostSessionId)
  }

  /** Leaving removes exactly the leaver's seat, keeping the others in order;
      with distinct sessions the leaver's session is gone from the room; a
      room that had a host still has one; nothing else about the game changes. */
  lemma {:induction false} LeaveOutcome(s: Snapshot, j: int)
    requires Good(s) && 0 <= j < |s.players|
    ensures var t := LeaveSpec(s, j);
      && t.players == Remove(s.players, j) && Good(t)
      && t.phase == s.phase && t.chains == s.chains && t.roundSubmissions == s.roundSubmissions
      && (DistinctSessions(s.players) ==> s.players[j].sessionId !in Sessions(t.players))
      && (HostPresent(s) && t.players != [] ==> HostPresent(t))
      && (IsHost(s, s.players[j]) && t.players != [] ==> t.hostSessionId == t.players[0].sessionId)
      && (!IsHost(s, s.players[j]) ==> t.hostSessionId == s.hostSessionId)
  {
    var t1 := Left(s, j);
    var t := LeaveSpec(s, j);
    assert t.players == t1.players && t.hostSessionId == t1.hostSessionId && t == t1.(outbox := t.outbox);
    LeftOutcome(s, j);
  }

  /** The departure itself, on its own. */
  lemma {:induction false} LeftOutcome(s: Snapshot, j: int)
    requires Good(s) && 0 <= j < |s.players|
    ensures var t := Left(s, j);
      && t.players == Remove(s.players, j) && Good(t)
      && t.phase == s.phase && t.chains == s.chains && t.roundSubmissions == s.roundSubmissions
      && (DistinctSessions(s.players) ==> s.players[j].sessionId !in Sessions(t.players))
      && (HostPresent(s) && t.players != [] ==> HostPresent(t))
      && (IsHost(s, s.players[j]) && t.players != [] ==> t.hostSessionId == t.players[0].sessionId)
      && (!IsHost(s, s.players[j]) ==> t.hostSessionId == s.hostSessionId)
  {
    var t := Left(s, j);
    if DistinctSessions(s.players) {
      forall k | 0 <= k < |t.players|
        ensures t.players[k].sessionId != s.players[j].sessionId
      {
        if k < j {
          assert t.players[k] == s.players[k];
        } else {
          assert t.players[k] == s.players[k + 1];
        }
      }
    }
    if HostPresent(s) && t.players != [] {
      if IsHost(s, s.players[j]) {
        assert IsHost(t, t.players[0]);
      } else {
        var h :| 0 <= h < |s.players| && IsHost(s, s.players[h]);
        assert t.hostSessionId == s.hostSessionId;
        if h < j {
          assert IsHost(t, t.players[h]);
        } else {
          assert IsHost(t, t.players[h - 1]);
        }
      }
    }
  }

  /** The answer `kickPlayer` gives for target session `sid`. */
  function KickReplyFor(s: Snapshot, sid: string): KickReply {
    var i := FindIndex(s.players, BySession(sid));
    if i == -1 then NoSuchPlayer else if s.players[i].online then PlayerOnline else KickOk
  }

  function OtherSession(sid: string): Player -> bool {
    (p: Player) => p.sessionId != sid
  }

  /** `players.filter(p => p.sessionId !== sid)`. */
  function Without(ps: seq<Player>, sid: string): (r: seq<Player>)
    ensures |r| <= |ps|
    ensures forall q :: q in r <==> q in ps && q.sessionId != sid
  {
    Filter(ps, OtherSession(sid))
  }

  /** Removing a session's seats keeps the others in roster order. */
  lemma WithoutKeepsOrder(a: seq<Player>, b: seq<Player>, sid: string)
    ensures Without(a + b, sid) == Without(a, sid) + Without(b, sid)
    ensures |a| == 1 ==> Without(a, sid) == (if a[0].sessionId == sid then [] else a)
  {
    FilterAppend(a, b, OtherSession(sid));
  }

  /** What a kick during a game fills in for the kicked seat `i`: the
      placeholder topic while topics are collected, or the round's
      auto-submission while the seat still owes an entry. */
  function KickFill(s: Snapshot, i: int, sid: string): (t: Snapshot)
    requires Good(s) && 0 <= i < |s.players|
  {
    if s.phase == Topics && i !in s.topics then FinishTopic(s, i, LeftTopic)
    else if s.phase == Playing && sid !in s.roundSubmissions then
      SubmitSpec(s, sid, TaskKind(s.currentRound), AutoSubmitContent(s.currentRound))
    else s
  }

  /** `kickPlayer` for target session `sid` in the caller's room.  Only an
      offline player can be kicked.  In the lobby the seat is removed (an
      emptied room is deleted by the caller) and the host role passes to the
      first seat if the target held it; during a game the seat stays, flagged
      kicked, and whatever it owes is filled in. */
  function KickSpec(s: Snapshot, sid: string): (t: Snapshot)
    requires Good(s)
  {
    var i := FindIndex(s.players, BySession(sid));
    if i == -1 || s.players[i].online then s
    else if s.phase == Lobby then KickFromLobby(s, sid)
    else KickInGame(s, i, sid)
  }

  function KickFromLobby(s: Snapshot, sid: string): (t: Snapshot)
  {
    var s1 := KickedLobby(s, sid);
    if s1.players == [] then s1 else s1.(outbox := s1.outbox + LobbyBroadcast(s1))
  }

  /** The lobby kick short of its broadcast: the session's seats go, and a
      departing host hands over to the first remaining seat. */
  function KickedLobby(s: Snapshot, sid: string): Snapshot
  {
    var ps := Without(s.players, sid);
    s.(players := ps, hostSessionId := if ps != [] && s.hostSessionId == sid then ps[0].sessionId else s.hostSessionId)
  }

  function KickInGame(s: Snapshot, i: int, sid: string): (t: Snapshot)
    requires Good(s) && 0 <= i < |s.players|
  {
    var s2 := KickedInGame(s, i, sid);
    s2.(outbox := s2.outbox + StatusBroadcast(s2))
  }

  /** A kick during a game short of its status broadcast: the seat is flagged
      kicked and what it owes is filled in. */
  function KickedInGame(s: Snapshot, i: int, sid: string): Snapshot
    requires Good(s) && 0 <= i < |s.players|
  {
    KickFill(s.(players := s.players[i := s.players[i].(kicked := true)]), i, sid)
  }

  /** A refused kick changes nothing; an accepted kick in the lobby removes
      every seat of that session and leaves a host among the remaining seats. */
  lemma {:induction false} KickLobbyOutcome(s: Snapshot, sid: string)
    requires Good(s)
    ensures KickReplyFor(s, sid) != KickOk ==> KickSpec(s, sid) == s
    ensures var t := KickSpec(s, sid);
      KickReplyFor(s, sid) == KickOk && s.phase == Lobby ==>
        && Good(t) && t.phase == Lobby
        && (forall q :: q in t.players <==> q in s.players && q.sessionId != sid)
        && (t.players != [] && HostPresent(s) ==> HostPresent(t))
        && t.players == Without(s.players, sid)
        && (t.players != [] && s.hostSessionId == sid ==> t.hostSessionId == t.players[0].sessionId)
        && (s.hostSessionId != sid ==> t.hostSessionId == s.hostSessionId)
        && var k := FindIndex(s.players, OtherSession(sid));
           && (t.players == [] <==> k == -1)
           && (k >= 0 ==> t.players[0] == s.players[k])
  {
    if KickReplyFor(s, sid) == KickOk && s.phase == Lobby {
      var t1 := KickedLobby(s, sid);
      assert KickSpec(s, sid) == KickFromLobby(s, sid);
      assert KickSpec(s, sid).players == t1.players && KickSpec(s, sid).hostSessionId == t1.hostSessionId;
      KickFromLobbyOutcome(s, sid);
    }
  }

  /** The lobby half of a kick, on its own. */
  lemma {:induction false} KickFromLobbyOutcome(s: Snapshot, sid: string)
    requires Good(s) && s.phase == Lobby
    ensures var t := KickedLobby(s, sid);
      && Good(t) && t.phase == Lobby
      && (forall q :: q in t.players <==> q in s.players && q.sessionId != sid)
      && (t.players != [] && HostPresent(s) ==> HostPresent(t))
      && t.players == Without(s.players, sid)
      && (t.players != [] && s.hostSessionId == sid ==> t.hostSessionId == t.players[0].sessionId)
      && (s.hostSessionId != sid ==> t.hostSessionId == s.hostSessionId)
      && var k := FindIndex(s.players, OtherSession(sid));
         && (t.players == [] <==> k == -1)
         && (k >= 0 ==> t.players[0] == s.players[k])
  {
    var t := KickedLobby(s, sid);
    FilterFirst(s.players, OtherSession(sid));
    if t.players != [] && HostPresent(s) {
      if s.hostSessionId == sid {
        assert IsHost(t, t.players[0]);
      } else {
        var h :| 0 <= h < |s.players| && IsHost(s, s.players[h]);
        assert s.players[h] in t.players;
        var k :| 0 <= k < |t.players| && t.players[k] == s.players[h];
        assert IsHost(t, t.players[k]);
      }
    }
  }

  /** Changing anything but the sessions does not move a session lookup. */
  lemma SameSessionsSameIndex(ps: seq<Player>, qs: seq<Player>, sid: string)
    requires |ps| == |qs| && forall k :: 0 <= k < |ps| ==> ps[k].sessionId == qs[k].sessionId
    ensures FindIndex(ps, BySession(sid)) == FindIndex(qs, BySession(sid))
  {
    var a := FindIndex(ps, BySession(sid));
    var b := FindIndex(qs, BySession(sid));
    assert forall k :: 0 <= k < |ps| ==> BySession(sid)(ps[k]) == BySession(sid)(qs[k]);
  }

  /** The fill-in a kick performs leaves the roster alone, keeps the
      invariant, and leaves the seat owing nothing in the current step. */
  lemma {:induction false} KickFillOutcome(s: Snapshot, i: int, sid: string)
    requires Good(s) && s.phase != Lobby && 0 <= i < |s.players| && FindIndex(s.players, BySession(sid)) == i
    ensures var t := KickFill(s, i, sid);
      && Good(t) && t.players == s.players
      && (s.phase == Topics ==> i in t.topics)
      && (s.phase == Playing && t.currentRound == s.currentRound ==> sid in t.roundSubmissions)
  {
    if s.phase == Topics && i !in s.topics {
      TopicOutcome(s, i, LeftTopic);
    } else if s.phase == Playing && sid !in s.roundSubmissions {
      SubmitOutcome(s, sid, TaskKind(s.currentRound), AutoSubmitContent(s.currentRound));
    }
  }

  /** During a game a kick never stalls the room on the kicked seat: the seat
      is flagged kicked and keeps its place; while topics are collected it
      has a topic afterwards, and during play its placeholder is the entry
      the seat owed: it lands on the seat's chain, and when it was the last
      entry the round waits for, the round index moves on, to the reveal
      exactly when the last round is done.  The room's invariant holds. */
  lemma {:induction false} KickGameOutcome(s: Snapshot, sid: string)
    requires Good(s) && s.phase != Lobby && KickReplyFor(s, sid) == KickOk
    ensures var t := KickSpec(s, sid);
      var i := FindIndex(s.players, BySession(sid));
      && Good(t) && |t.players| == |s.players| && t.players[i].kicked
      && (forall k :: 0 <= k < |s.players| && k != i ==> t.players[k] == s.players[k])
      && (s.phase == Topics ==> i in t.topics)
      && (s.phase == Playing && t.currentRound == s.currentRound ==> sid in t.roundSubmissions)
      && (s.phase == Topics && i !in s.topics ==> t.topics == s.topics[i := LeftTopic])
      && (s.phase == Topics && i in s.topics ==> t.topics == s.topics && t.chains == s.chains)
      && (s.phase == Playing && sid !in s.roundSubmissions && |s.roundSubmissions| + 1 < |s.players| ==>
            && t.chains == AppendEntry(s.chains, ChainFor(|s.players|, i, s.currentRound),
                                       Placeholder(s.currentRound, s.players[i].name))
            && t.roundSubmissions == s.roundSubmissions + {sid})
      && (s.phase == Playing && sid !in s.roundSubmissions && |s.roundSubmissions| + 1 >= |s.players| ==>
            && Grows(AppendEntry(s.chains, ChainFor(|s.players|, i, s.currentRound),
                                 Placeholder(s.currentRound, s.players[i].name)), t.chains)
            && t.currentRound > s.currentRound
            && (t.phase == Reveal <==> t.currentRound >= t.totalRounds))
      && (s.phase == Playing && sid in s.roundSubmissions ==> t.chains == s.chains)
      && (s.phase == Reveal ==> t.chains == s.chains && t.phase == Reveal)
  {
    var i := FindIndex(s.players, BySession(sid));
    var t := KickSpec(s, sid);
    var s2 := KickedInGame(s, i, sid);
    assert t == KickInGame(s, i, sid);
    assert t == s2.(outbox := t.outbox);
    KickedInGameOutcome(s, sid);
  }

  /** `KickGameOutcome` short of the broadcast. */
  lemma {:induction false} KickedInGameOutcome(s: Snapshot, sid: string)
    requires Good(s) && s.phase != Lobby && KickReplyFor(s, sid) == KickOk
    ensures var i := FindIndex(s.players, BySession(sid));
      var t := KickedInGame(s, i, sid);
      && Good(t) && |t.players| == |s.players| && t.players[i].kicked
      && (forall k :: 0 <= k < |s.players| && k != i ==> t.players[k] == s.players[k])
      && (s.phase == Topics ==> i in t.topics)
      && (s.phase == Playing && t.currentRound == s.currentRound ==> sid in t.roundSubmissions)
      && (s.phase == Topics && i !in s.topics ==> t.topics == s.topics[i := LeftTopic])
      && (s.phase == Topics && i in s.topics ==> t.topics == s.topics && t.chains == s.chains)
      && (s.phase == Playing && sid !in s.roundSubmissions && |s.roundSubmissions| + 1 < |s.players| ==>
            && t.chains == AppendEntry(s.chains, ChainFor(|s.players|, i, s.currentRound),
                                       Placeholder(s.currentRound, s.players[i].name))
            && t.roundSubmissions == s.roundSubmissions + {sid})
      && (s.phase == Playing && sid !in s.roundSubmissions && |s.roundSubmissions| + 1 >= |s.players| ==>
            && Grows(AppendEntry(s.chains, ChainFor(|s.players|, i, s.currentRound),
                                 Placeholder(s.currentRound, s.players[i].name)), t.chains)
            && t.currentRound > s.currentRound
            && (t.phase == Reveal <==> t.currentRound >= t.totalRounds))
      && (s.phase == Playing && sid in s.roundSubmissions ==> t.chains == s.chains)
      && (s.phase == Reveal ==> t.chains == s.chains && t.phase == Reveal)
  {
    var i := FindIndex(s.players, BySession(sid));
    var s1 := s.(players := s.players[i := s.players[i].(kicked := true)]);
    SameSessionsSameIndex(s.players, s1.players, sid);
    KickFillOutcome(s1, i, sid);
    var t := KickedInGame(s, i, sid);
    assert t == KickFill(s1, i, sid);
    if s.phase == Topics {
      KickFillTopics(s1, i, sid);
    } else if s.phase == Playing {
      KickFillPlay(s1, i, sid);
    } else {
      assert t == s1;
    }
  }

  /** The fill-in of a kick while topics are collected: the placeholder topic
      for a seat that has none, nothing otherwise. */
  lemma {:induction false} KickFillTopics(s: Snapshot, i: int, sid: string)
    requires Good(s) && s.phase == Topics && 0 <= i < |s.players|
    ensures var t := KickFill(s, i, sid);
      && (i !in s.topics ==> t.topics == s.topics[i := LeftTopic])
      && (i in s.topics ==> t.topics == s.topics && t.chains == s.chains)
  {
    if i !in s.topics {
      TopicOutcome(s, i, LeftTopic);
    }
  }

  /** The fill-in of a kick during play: the round's placeholder on the
      seat's chain for a session that owes one, nothing otherwise. */
  lemma {:induction false} KickFillPlay(s: Snapshot, i: int, sid: string)
    requires Good(s) && s.phase == Playing && 0 <= i < |s.players| && FindIndex(s.players, BySession(sid)) == i
    ensures var t := KickFill(s, i, sid);
      && (sid !in s.roundSubmissions && |s.roundSubmissions| + 1 < |s.players| ==>
            && t.chains == AppendEntry(s.chains, ChainFor(|s.players|, i, s.currentRound),
                                       Placeholder(s.currentRound, s.players[i].name))
            && t.roundSubmissions == s.roundSubmissions + {sid})
      && (sid !in s.roundSubmissions && |s.roundSubmissions| + 1 >= |s.players| ==>
            && Grows(AppendEntry(s.chains, ChainFor(|s.players|, i, s.currentRound),
                                 Placeholder(s.currentRound, s.players[i].name)), t.chains)
            && t.currentRound > s.currentRound
            && (t.phase == Reveal <==> t.currentRound >= t.totalRounds))
      && (sid in s.roundSubmissions ==> t.chains == s.chains)
  {
    if sid !in s.roundSubmissions {
      SubmitOutcome(s, sid, TaskKind(s.currentRound), AutoSubmitContent(s.currentRound));
    }
  }

  /** A kick during play keeps the game on schedule: the kicked seat's
      placeholder is the entry its seat owed. */
  lemma {:induction false} KickSchedule(s: Snapshot, sid: string)
    requires Good(s) && s.phase == Playing && KickReplyFor(s, sid) == KickOk
    requires DistinctSessions(s.players) && OnSchedule(s)
    ensures var t := KickSpec(s, sid);
      && |t.players| == |s.players| && (t.phase == Playing || t.phase == Reveal)
      && (t.phase == Playing ==> OnSchedule(t))
      && (t.phase == Reveal ==>
            && t.currentRound == t.totalRounds && |t.players| <= |t.chains|
            && forall c :: 0 <= c < |t.players| ==> |t.chains[c].entries| == 1 + t.totalRounds)
  {
    var i := FindIndex(s.players, BySession(sid));
    var s1 := s.(players := s.players[i := s.players[i].(kicked := true)]);
    SameSessionsSameIndex(s.players, s1.players, sid);
    KickedOnSchedule(s, i);
    KickFillSchedule(s1, i, sid);
    var s2 := KickedInGame(s, i, sid);
    assert KickSpec(s, sid) == KickInGame(s, i, sid);
  }

  /** Flagging a seat kicked moves no session, so the schedule is kept. */
  lemma KickedOnSchedule(s: Snapshot, i: int)
    requires OnSchedule(s) && 0 <= i < |s.players|
    ensures OnSchedule(s.(players := s.players[i := s.players[i].(kicked := true)]))
  {
    SeatOnSchedule(s, i, s.players[i].(kicked := true), s.outbox);
  }

  lemma KickFillSchedule(s: Snapshot, i: int, sid: string)
    requires Good(s) && s.phase == Playing && 0 <= i < |s.players|
    requires DistinctSessions(s.players) && OnSchedule(s)
    ensures ScheduleKept(s, KickFill(s, i, sid))
  {
    if sid !in s.roundSubmissions {
      ScheduleSubmit(s, sid, TaskKind(s.currentRound), AutoSubmitContent(s.currentRound));
    }
  }

  // --------------------------------------------------- connection changes

  /** Replacing one seat changes the online count by that seat's difference. */
  lemma {:induction false} OnlineCountSet(ps: seq<Player>, j: int, p: Player)
    requires 0 <= j < |ps|
    ensures OnlineCount(ps[j := p]) + (if ps[j].online then 1 else 0)
         == OnlineCount(ps) + (if p.online then 1 else 0)
    decreases j
  {
    var qs := ps[j := p];
    if j == 0 {
      assert qs[1..] == ps[1..];
    } else {
      assert qs[1..] == ps[1..][j - 1 := p];
      OnlineCountSet(ps[1..], j - 1, p);
    }
  }

  /** `disconnect` for seat `j`: the seat loses its connection and goes
      offline, and the others are told, with the new online count. */
  function DisconnectSpec(s: Snapshot, j: int): (t: Snapshot)
    requires 0 <= j < |s.players|
  {
    var ps := s.players[j := s.players[j].(socketId := None, online := false)];
    var s1 := s.(players := ps,
                 outbox := s.outbox + Broadcast(ps, Everyone(PlayerWentOffline(s.players[j].name, OnlineCount(ps)))));
    s1.(outbox := s1.outbox + StatusBroadcast(s1))
  }

  /** A disconnect takes exactly one seat offline and touches nothing of the
      game; the broadcasts go out after the seat lost its connection.  A round in progress
      keeps waiting for the seat (it is not auto-submitted until kicked or the
      next round starts). */
  lemma {:induction false} DisconnectOutcome(s: Snapshot, j: int)
    requires Good(s) && 0 <= j < |s.players|
    ensures var t := DisconnectSpec(s, j);
      && Good(t) && |t.players| == |s.players|
      && t.players[j].socketId.None? && !t.players[j].online
      && (forall k :: 0 <= k < |s.players| && k != j ==> t.players[k] == s.players[k])
      && t.phase == s.phase && t.chains == s.chains && t.topics == s.topics
      && t.roundSubmissions == s.roundSubmissions && t.hostSessionId == s.hostSessionId
      && OnlineCount(t.players) == OnlineCount(s.players) - (if s.players[j].online then 1 else 0)
      && (Connected(s.players) ==> Connected(t.players))
  {
    var p := s.players[j].(socketId := None, online := false);
    OnlineCountSet(s.players, j, p);
  }

  /** `reconnectSession` for seat `j` on connection `sock` up to the point
      where the missed state is replayed: the seat comes back online and
      everyone is told (under the session's recorded `name`). */
  function Reconnected(s: Snapshot, j: int, sock: string, name: string): (t: Snapshot)
    requires 0 <= j < |s.players|
  {
    var ps := s.players[j := s.players[j].(socketId := Some(sock), online := true)];
    var s1 := s.(players := ps,
                 outbox := s.outbox + Broadcast(ps, Everyone(PlayerReconnected(name, OnlineCount(ps)))));
    s1.(outbox := s1.outbox + StatusBroadcast(s1))
  }

  /** `reconnectSession` for seat `j`: `Reconnected`, then `restoreState`. */
  function ReconnectSpec(s: Snapshot, j: int, sock: string, name: string): (t: Snapshot)
    requires Good(s) && 0 <= j < |s.players|
  {
    var s2 := Reconnected(s, j, sock, name);
    s2.(outbox := s2.outbox + RestoreEmits(s2, j))
  }

  /** The first half of a reconnect changes only the seat and the messages. */
  lemma ReconnectedShape(s: Snapshot, j: int, sock: string, name: string)
    requires 0 <= j < |s.players|
    ensures var t := Reconnected(s, j, sock, name);
      t == s.(players := s.players[j := s.players[j].(socketId := Some(sock), online := true)], outbox := t.outbox)
  {
  }

  /** Replacing a seat by one under the same session keeps the schedule. */
  lemma SeatOnSchedule(s: Snapshot, j: int, p: Player, out: seq<Emit>)
    requires OnSchedule(s) && 0 <= j < |s.players| && p.sessionId == s.players[j].sessionId
    ensures OnSchedule(s.(players := s.players[j := p], outbox := out))
  {
    var ps := s.players[j := p];
    assert Sessions(ps) == Sessions(s.players) by {
      assert forall k :: 0 <= k < |s.players| ==> ps[k].sessionId == s.players[k].sessionId;
    }
  }

  /** Losing a connection in mid-game keeps the game on schedule: the seat
      keeps its session and no chain changes. */
  lemma {:induction false} DisconnectOnSchedule(s: Snapshot, j: int)
    requires 0 <= j < |s.players| && OnSchedule(s)
    ensures OnSchedule(DisconnectSpec(s, j))
  {
    var d := DisconnectSpec(s, j);
    var p := s.players[j].(socketId := None, online := false);
    assert d == s.(players := s.players[j := p], outbox := d.outbox);
    SeatOnSchedule(s, j, p, d.outbox);
  }

  /** Regaining a connection in mid-game keeps the game on schedule. */
  lemma {:induction false} ReconnectOnSchedule(s: Snapshot, j: int, sock: string, name: string)
    requires Good(s) && 0 <= j < |s.players| && OnSchedule(s)
    ensures OnSchedule(ReconnectSpec(s, j, sock, name))
  {
    var r := ReconnectSpec(s, j, sock, name);
    var p := s.players[j].(socketId := Some(sock), online := true);
    ReconnectedShape(s, j, sock, name);
    assert r == s.(players := s.players[j := p], outbox := r.outbox);
    SeatOnSchedule(s, j, p, r.outbox);
  }

  /** A reconnect brings exactly one seat back online and touches nothing of
      the game. */
  lemma {:induction false} ReconnectOutcome(s: Snapshot, j: int, sock: string, name: string)
    requires Good(s) && 0 <= j < |s.players|
    ensures var t := ReconnectSpec(s, j, sock, name);
      && Good(t) && |t.players| == |s.players|
      && t.players[j].socketId == Some(sock) && t.players[j].online
      && t.players[j].sessionId == s.players[j].sessionId
      && (forall k :: 0 <= k < |s.players| && k != j ==> t.players[k] == s.players[k])
      && t.phase == s.phase && t.chains == s.chains && t.topics == s.topics
      && t.roundSubmissions == s.roundSubmissions && t.hostSessionId == s.hostSessionId
      && t.players == Reconnected(s, j, sock, name).players
  {
    ReconnectedShape(s, j, sock, name);
  }

  /** A reconnect (whose roster is that of `Reconnected`) raises the online
      count by one for a seat that was offline and keeps "online exactly when
      connected". */
  lemma {:induction false} ReconnectCount(s: Snapshot, j: int, sock: string, name: string)
    requires 0 <= j < |s.players|
    ensures var ps := Reconnected(s, j, sock, name).players;
      && OnlineCount(ps) == OnlineCount(s.players) + (if s.players[j].online then 0 else 1)
      && (Connected(s.players) ==> Connected(ps))
  {
    var p := s.players[j].(socketId := Some(sock), online := true);
    OnlineCountSet(s.players, j, p);
    ReconnectedShape(s, j, sock, name);
  }

  /** During play a reconnecting seat that still owes this round's entry is
      sent, last, the very prompt `startRound` sent it. */
  lemma {:induction false} ReconnectRestoresPrompt(s: Snapshot, j: int, sock: string, name: string)
    requires Good(s) && s.phase == Playing && 0 <= j < |s.players|
    requires !s.players[j].kicked && s.players[j].sessionId !in s.roundSubmissions
    ensures var t := ReconnectSpec(s, j, sock, name);
      |t.outbox| > 0 && t.outbox[|t.outbox| - 1] == Emit(sock, PromptFor(s, j))
  {
    var s2 := Reconnected(s, j, sock, name);
    ReconnectedShape(s, j, sock, name);
    PromptSameGame(s, s2, j);
    RestoreRepeatsPrompt(s2, j);
  }

  /** A reconnecting seat that has submitted this round is told to wait, with
      the round's progress, and is not prompted. */
  lemma {:induction false} ReconnectRestoresWait(s: Snapshot, j: int, sock: string, name: string)
    requires Good(s) && s.phase == Playing && 0 <= j < |s.players|
    requires s.players[j].sessionId in s.roundSubmissions
    ensures var t := ReconnectSpec(s, j, sock, name);
      |t.outbox| > 0 && t.outbox[|t.outbox| - 1] == Emit(sock, WaitingForOthers(|s.roundSubmissions|, |s.players|))
  {
  }

  // ------------------------------------------------------------ joining

  function ByName(name: string): Player -> bool {
    (p: Player) => p.name == name
  }

  /** A seat a mid-game `joinRoom` may take over: same name, offline, not kicked. */
  function Dropped(name: string): Player -> bool {
    (p: Player) => p.name == name && !p.online && !p.kicked
  }

  predicate DistinctNames(ps: seq<Player>) {
    forall j, k :: 0 <= j < k < |ps| ==> ps[j].name != ps[k].name
  }

  /** The answer `joinRoom` gives once the room is found. */
  function JoinReplyFor(s: Snapshot, name: string): JoinReply {
    if s.phase != Lobby then
      if FindIndex(s.players, Dropped(name)) == -1 then GameRunning else Rejoined
    else if |s.players| >= MaxPlayers then RoomFull
    else if FindIndex(s.players, ByName(name)) >= 0 then NameTaken
    else Joined
  }

  /** `joinRoom` in the lobby: a new seat at the end, unless the room is full
      or the name is taken. */
  function JoinLobbySpec(s: Snapshot, sock: string, sid: string, name: string): (t: Snapshot)
  {
    if |s.players| >= MaxPlayers || FindIndex(s.players, ByName(name)) >= 0 then s
    else
      var s1 := s.(players := s.players + [Player(Some(sock), sid, name, true, false)]);
      s1.(outbox := s1.outbox + LobbyBroadcast(s1))
  }

  /** `joinRoom` on a found room: in the lobby a new seat; in a game the
      first dropped seat of that name is taken over, or nothing happens. */
  function JoinSpec(s: Snapshot, sock: string, sid: string, name: string): Snapshot
    requires Good(s)
  {
    if s.phase == Lobby then JoinLobbySpec(s, sock, sid, name)
    else
      var j := FindIndex(s.players, Dropped(name));
      if j == -1 then s else Rejoin(s, j, sock, sid, name)
  }

  /** A lobby join appends exactly the newcomer, online on its connection,
      and only when the answer is `Joined`; so the lobby never exceeds eight
      seats and names stay distinct. */
  lemma {:induction false} JoinLobbyOutcome(s: Snapshot, sock: string, sid: string, name: string)
    requires Good(s) && s.phase == Lobby
    ensures var t := JoinLobbySpec(s, sock, sid, name);
      && Good(t) && t.phase == Lobby && t.hostSessionId == s.hostSessionId
      && (JoinReplyFor(s, name) != Joined ==> t == s)
      && (JoinReplyFor(s, name) == Joined ==> t.players == s.players + [Player(Some(sock), sid, name, true, false)])
      && (|s.players| <= MaxPlayers ==> |t.players| <= MaxPlayers)
      && (DistinctNames(s.players) ==> DistinctNames(t.players))
      && (Connected(s.players) ==> Connected(t.players))
  {
  }

  /** Seat `j` under session `sid`, everything else as it was. */
  function Renamed(s: Snapshot, j: int, sid: string): (t: Snapshot)
    requires 0 <= j < |s.players|
  {
    s.(players := s.players[j := s.players[j].(sessionId := sid)])
  }

  /** The mid-game branch of `joinRoom`: the dropped seat `j` takes the
      caller's connection and the new session `sid`, then proceeds as
      `reconnectSession` does.  The round's submissions and the host role
      stay keyed by the seat's old session. */
  function Rejoin(s: Snapshot, j: int, sock: string, sid: string, name: string): (t: Snapshot)
    requires Good(s) && 0 <= j < |s.players|
  {
    ReconnectSpec(Renamed(s, j, sid), j, sock, name)
  }

  /** A rejoin brings the seat back under the new session and connection,
      keeps every other seat and the whole game as they were, and leaves the
      submissions and the host session untouched. */
  lemma {:induction false} RejoinOutcome(s: Snapshot, j: int, sock: string, sid: string, name: string)
    requires Good(s) && 0 <= j < |s.players|
    ensures var t := Rejoin(s, j, sock, sid, name);
      && Good(t) && |t.players| == |s.players|
      && t.players[j] == s.players[j].(socketId := Some(sock), sessionId := sid, online := true)
      && (forall k :: 0 <= k < |s.players| && k != j ==> t.players[k] == s.players[k])
      && t.phase == s.phase && t.chains == s.chains && t.topics == s.topics
      && t.roundSubmissions == s.roundSubmissions && t.hostSessionId == s.hostSessionId
  {
    ReconnectOutcome(Renamed(s, j, sid), j, sock, name);
  }

  /** A seat that already submitted this round and rejoins under a new
      session is prompted again for the same round, and its new session is
      not counted as submitted, so a second entry from it is accepted. */
  lemma {:induction false} RejoinRepromptsSubmitted(s: Snapshot, j: int, sock: string, sid: string, name: string)
    requires Good(s) && s.phase == Playing && 0 <= j < |s.players| && !s.players[j].kicked
    requires s.players[j].sessionId in s.roundSubmissions && sid !in s.roundSubmissions
    ensures var t := Rejoin(s, j, sock, sid, name);
      && |t.outbox| > 0 && t.outbox[|t.outbox| - 1] == Emit(sock, PromptFor(s, j))
      && t.players[j].sessionId == sid && sid !in t.roundSubmissions
  {
    var r := Renamed(s, j, sid);
    ReconnectRestoresPrompt(r, j, sock, name);
    PromptSameGame(s, r, j);
    ReconnectOutcome(r, j, sock, name);
  }

  /** The same seat in a room whose host is that seat: after the rejoin no
      seat holds the host session any more (with distinct sessions), so no
      connection can drive the host-only handlers. */
  lemma {:induction false} RejoinDropsHost(s: Snapshot, j: int, sock: string, sid: string, name: string)
    requires Good(s) && s.phase != Lobby && 0 <= j < |s.players| && DistinctSessions(s.players)
    requires IsHost(s, s.players[j]) && sid != s.players[j].sessionId
    ensures !HostPresent(Rejoin(s, j, sock, sid, name))
  {
    var r := Renamed(s, j, sid);
    ReconnectOutcome(r, j, sock, name);
    var t := Rejoin(s, j, sock, sid, name);
    forall k | 0 <= k < |t.players|
      ensures !IsHost(t, t.players[k])
    {
      if k != j {
        assert t.players[k] == s.players[k];
      }
    }
  }

  // ---------------------------------------------------------- submitting

  /** `submitDrawing` / `submitGuess` from connection `sock`: the entry of the
      first seat on that connection, during play only. */
  function SubmitEntrySpec(s: Snapshot, sock: string, kind: Kind, content: string): (t: Snapshot)
    requires Good(s)
  {
    if s.phase != Playing then s
    else
      var i := FindIndex(s.players, BySocket(sock));
      if i == -1 then s else SubmitSpec(s, s.players[i].sessionId, kind, content)
  }

  /** With distinct sessions, a seat's entry lands on the chain the rotation
      assigns that seat this round, at the end, and nowhere else; and a
      second entry in the same round is ignored. */
  lemma {:induction false} SubmitEntryOutcome(s: Snapshot, sock: string, kind: Kind, content: string)
    requires Good(s) && s.phase == Playing && DistinctSessions(s.players)
    ensures var t := SubmitEntrySpec(s, sock, kind, content);
      var i := FindIndex(s.players, BySocket(sock));
      && Good(t)
      && (i == -1 ==> t == s)
      && (i >= 0 && s.players[i].sessionId in s.roundSubmissions ==> t == s)
      && (i >= 0 && s.players[i].sessionId !in s.roundSubmissions
            && |s.roundSubmissions| + 1 < |s.players| ==>
            t.chains == AppendEntry(s.chains, ChainFor(|s.players|, i, s.currentRound),
                                    Entry(kind, content, s.players[i].name)))
      && (i >= 0 && s.players[i].sessionId !in s.roundSubmissions
            && |s.roundSubmissions| + 1 >= |s.players| ==>
            && Grows(AppendEntry(s.chains, ChainFor(|s.players|, i, s.currentRound),
                                 Entry(kind, content, s.players[i].name)), t.chains)
            && t.currentRound > s.currentRound
            && (t.phase == Reveal <==> t.currentRound >= t.totalRounds))
  {
    var i := FindIndex(s.players, BySocket(sock));
    if i >= 0 {
      SubmitBySeat(s, i, kind, content);
      assert SubmitEntrySpec(s, sock, kind, content) == SubmitSpec(s, s.players[i].sessionId, kind, content);
    }
  }

  /** `SubmitEntryOutcome` for the entry of seat `i`, once its connection is
      found. */
  lemma {:induction false} SubmitBySeat(s: Snapshot, i: int, kind: Kind, content: string)
    requires Good(s) && s.phase == Playing && DistinctSessions(s.players) && 0 <= i < |s.players|
    ensures var sid := s.players[i].sessionId;
      var t := SubmitSpec(s, sid, kind, content);
      && Good(t)
      && (sid in s.roundSubmissions ==> t == s)
      && (sid !in s.roundSubmissions && |s.roundSubmissions| + 1 < |s.players| ==>
            t.chains == AppendEntry(s.chains, ChainFor(|s.players|, i, s.currentRound),
                                    Entry(kind, content, s.players[i].name)))
      && (sid !in s.roundSubmissions && |s.roundSubmissions| + 1 >= |s.players| ==>
            && Grows(AppendEntry(s.chains, ChainFor(|s.players|, i, s.currentRound),
                                 Entry(kind, content, s.players[i].name)), t.chains)
            && t.currentRound > s.currentRound
            && (t.phase == Reveal <==> t.currentRound >= t.totalRounds))
  {
    var sid := s.players[i].sessionId;
    assert FindIndex(s.players, BySession(sid)) == i;
    SubmitOutcome(s, sid, kind, content);
  }
}
