/** The server's two registries and its socket handlers.  `rooms` maps a room
    code to its room; `sessions` maps a client's session token to the room and
    name it joined under.  A handler finds the caller's room (by connection,
    or as its host), then lets the room do the work. */
module Registry {
  import opened Types
  import opened Engine
  import opened Lifecycle
  import opened Rooms

  /** The characters of a room code (no I, O, 0 or 1) and its length. */
  const CodeAlphabet := "ABCDEFGHJKLMNPQRSTUVWXYZ23456789"
  const CodeLength := 4

  /** What `sessions[sessionId]` records. */
  datatype Session = Session(roomCode: string, name: string)

  /** The reply of a handler that first looks up the caller's room. */
  datatype StartReply = NoRoom | TooFewPlayers | Started

  /** What `genCode` can return: four characters of the code alphabet. */
  predicate IsCode(c: string) {
    |c| == CodeLength && forall k :: 0 <= k < |c| ==> c[k] in CodeAlphabet
  }

  /** `toUpperCase` on one character, ASCII letters only. */
  function UpperChar(ch: char): (u: char)
    ensures 'a' <= ch <= 'z' ==> 'A' <= u <= 'Z'
    ensures 'a' <= ch <= 'z' ==> u as int == ch as int - 32
    ensures !('a' <= ch <= 'z') ==> u == ch
  {
    if 'a' <= ch <= 'z' then (ch as int - 32) as char else ch
  }

  function Upper(s: string): (r: string)
    ensures |r| == |s| && forall k :: 0 <= k < |s| ==> r[k] == UpperChar(s[k])
  {
    seq(|s|, k requires 0 <= k < |s| => UpperChar(s[k]))
  }

  /** Upper-casing a typed code is harmless on a real code and final:
      every code `genCode` can produce is its own upper case, and upper-casing
      twice changes nothing more; and a code typed with any of its letters
      in lower case upper-cases to the code, so it finds the room. */
  lemma UpperOnCodes(c: string, typed: string)
    ensures IsCode(c) ==> Upper(c) == c
    ensures Upper(Upper(typed)) == Upper(typed)
    ensures IsCode(c) && Upper(typed) == c ==> |typed| == CodeLength
    ensures IsCode(c) && |typed| == |c|
      && (forall k :: 0 <= k < |c| ==>
            typed[k] == c[k] || ('A' <= c[k] <= 'Z' && typed[k] as int == c[k] as int + 32))
      ==> Upper(typed) == c
  {
    if IsCode(c) {
      forall k | 0 <= k < |c|
        ensures UpperChar(c[k]) == c[k] && !('a' <= c[k] <= 'z')
      {
        CodeCharUpper(c[k]);
      }
    }
  }

  /** No character of the code alphabet is a lower-case letter. */
  lemma CodeCharUpper(ch: char)
    requires ch in CodeAlphabet
    ensures !('a' <= ch <= 'z') && UpperChar(ch) == ch
  {
  }

  class Server {
    var rooms: map<string, Room>
    /** The codes of `rooms` in creation order: the order in which
        `Object.values(rooms)` and `for (code in rooms)` visit them. */
    var order: seq<string>
    var sessions: map<string, Session>

    /** Every room is filed under its own code and keeps its invariant, and
        `order` lists exactly the codes. */
    predicate Valid()
      reads this, rooms.Values
    {
      && (forall c :: c in rooms ==> rooms[c].code == c && rooms[c].Valid())
      && (forall c :: c in rooms ==> c in order)
      && (forall k :: 0 <= k < |order| ==> order[k] in rooms)
    }

    /** Does the room filed under `c` match the lookup?  For `findBySocket`:
        some seat is on connection `sock`; for `findByHost`: the first seat
        on `sock` is the host. */
    predicate Matches(c: string, sock: string, host: bool)
      requires c in rooms
      reads this, rooms.Values
    {
      if host then IsHostSocket(rooms[c].State(), sock)
      else FindIndex(rooms[c].players, BySocket(sock)) >= 0
    }

    /** The first matching room at or after position `i` of `order`. */
    function FindFrom(sock: string, host: bool, i: nat): (r: Option<string>)
      requires Valid() && i <= |order|
      reads this, rooms.Values
      ensures r.Some? ==> r.value in rooms && Matches(r.value, sock, host)
      decreases |order| - i
    {
      if i == |order| then None
      else if Matches(order[i], sock, host) then Some(order[i])
      else FindFrom(sock, host, i + 1)
    }

    /** A lookup finds a registered, matching room, the first one in `order`,
        and finds nothing exactly when no room matches. */
    lemma {:induction false} FindFromFirst(sock: string, host: bool, i: nat)
      requires Valid() && i <= |order|
      ensures var r := FindFrom(sock, host, i);
        && (r.Some? ==> exists k :: i <= k < |order| && order[k] == r.value
                           && forall m :: i <= m < k ==> !Matches(order[m], sock, host))
        && (r.None? <==> forall k :: i <= k < |order| ==> !Matches(order[k], sock, host))
    {
      FindFromFound(sock, host, i);
      FindFromNone(sock, host, i);
    }

    /** The room a lookup finds is the first match at or after `i`. */
    lemma {:induction false} FindFromFound(sock: string, host: bool, i: nat)
      requires Valid() && i <= |order|
      ensures var r := FindFrom(sock, host, i);
        r.Some? ==> exists k :: i <= k < |order| && order[k] == r.value
                      && forall m :: i <= m < k ==> !Matches(order[m], sock, host)
      decreases |order| - i
    {
      if i < |order| {
        var r := FindFrom(sock, host, i);
        if Matches(order[i], sock, host) {
          assert r == Some(order[i]);
        } else {
          FindFromFound(sock, host, i + 1);
          assert r == FindFrom(sock, host, i + 1);
          if r.Some? {
            var k :| i + 1 <= k < |order| && order[k] == r.value
                     && forall m :: i + 1 <= m < k ==> !Matches(order[m], sock, host);
            assert forall m :: i <= m < k ==> !Matches(order[m], sock, host);
          }
        }
      }
    }

    /** A lookup finds nothing exactly when no room at or after `i` matches. */
    lemma {:induction false} FindFromNone(sock: string, host: bool, i: nat)
      requires Valid() && i <= |order|
      ensures FindFrom(sock, host, i).None? <==> forall k :: i <= k < |order| ==> !Matches(order[k], sock, host)
      decreases |order| - i
    {
      if i < |order| && !Matches(order[i], sock, host) {
        FindFromNone(sock, host, i + 1);
      }
    }

    /** `findBySocket`: the first room, in `order`, with a seat on `sock`;
        `None` exactly when no room has one. */
    function FindBySocket(sock: string): (r: Option<string>)
      requires Valid()
      reads this, rooms.Values
      ensures r.Some? ==> r.value in rooms && FindIndex(rooms[r.value].players, BySocket(sock)) >= 0
      ensures r.None? <==> forall k :: 0 <= k < |order| ==> FindIndex(rooms[order[k]].players, BySocket(sock)) == -1
    {
      FindFromFirst(sock, false, 0);
      FindFrom(sock, false, 0)
    }

    /** `findByHost`: the first room, in `order`, whose first seat on `sock`
        holds the host session; `None` exactly when there is none. */
    function FindByHost(sock: string): (r: Option<string>)
      requires Valid()
      reads this, rooms.Values
      ensures r.Some? ==> r.value in rooms && IsHostSocket(rooms[r.value].State(), sock)
      ensures r.None? <==> forall k :: 0 <= k < |order| ==> !IsHostSocket(rooms[order[k]].State(), sock)
    {
      FindFromFirst(sock, true, 0);
      FindFrom(sock, true, 0)
    }

    constructor ()
      ensures Valid() && rooms == map[] && order == [] && sessions == map[]
    {
      rooms, order, sessions := map[], [], map[];
    }

    /** `createRoom` under the code `genCode` drew (`code`, passed in since the
        draw is random): a new room holding only the caller, as host. */
    method CreateRoom(sock: string, sid: string, name: string, code: string) returns (r: Room)
      requires Valid() && IsCode(code) && code !in rooms
      modifies this
      ensures Valid() && fresh(r)
      ensures rooms == old(rooms)[code := r] && order == old(order) + [code]
      ensures sessions == old(sessions)[sid := Session(code, name)]
      ensures var s0 := Snapshot(code, sid, [Player(Some(sock), sid, name, true, false)], Lobby,
                                 map[], [], 0, 0, {}, 0, 0, []);
              r.State() == s0.(outbox := LobbyBroadcast(s0))
    {
      r := new Room(code, sock, sid, name);
      r.BroadcastLobby();
      rooms := rooms[code := r];
      order := order + [code];
      sessions := sessions[sid := Session(code, name)];
    }

    /** `reconnectSession`: a known session takes its seat back on `sock`.
        Refused when the session, its room or its seat is gone. */
    method ReconnectSession(sock: string, sid: string) returns (ok: bool)
      requires Valid()
      modifies rooms.Values
      ensures Valid() && unchanged(this)
      ensures ok <==> sid in sessions && sessions[sid].roomCode in rooms
                      && FindIndex(old(rooms[sessions[sid].roomCode].players), BySession(sid)) >= 0
      ensures ok ==> var r := rooms[sessions[sid].roomCode];
        r.State() == ReconnectSpec(old(r.State()), FindIndex(old(r.players), BySession(sid)), sock, sessions[sid].name)
      ensures forall c :: c in rooms && (!ok || c != sessions[sid].roomCode) ==> rooms[c].State() == old(rooms[c].State())
    {
      if sid !in sessions || sessions[sid].roomCode !in rooms {
        return false;
      }
      var s := sessions[sid];
      var r := rooms[s.roomCode];
      var j := FindIndex(r.players, BySession(sid));
      if j == -1 {
        return false;
      }
      ReconnectSeat(s.roomCode, j, sock, s.name);
      return true;
    }

    /** Seat `j` of room `c` comes back on `sock`. */
    method ReconnectSeat(c: string, j: int, sock: string, name: string)
      requires Valid() && c in rooms && 0 <= j < |rooms[c].players|
      modifies rooms[c]
      ensures Valid() && unchanged(this)
      ensures rooms[c].State() == ReconnectSpec(old(rooms[c].State()), j, sock, name)
      ensures forall d :: d in rooms && d != c ==> rooms[d].State() == old(rooms[d].State())
    {
      var r := rooms[c];
      ghost var before := r.State();
      assert forall d :: d in rooms && d != c ==> rooms[d] != r;
      r.Reconnect(j, sock, name);
      assert r.State() == ReconnectSpec(before, j, sock, name);
      forall d | d in rooms
        ensures rooms[d].code == d && rooms[d].Valid()
      {
        if d != c {
          assert rooms[d] != r;
        }
      }
    }

    /** `startGame` from connection `sock`. */
    method StartGame(sock: string) returns (reply: StartReply)
      requires Valid()
      modifies rooms.Values
      ensures Valid() && unchanged(this)
      ensures var f := old(FindByHost(sock));
        && (f.None? ==> reply == NoRoom)
        && (f.Some? ==>
              && reply == (if |old(rooms[f.value].players)| < MinPlayers then TooFewPlayers else Started)
              && rooms[f.value].State() == StartGameSpec(old(rooms[f.value].State())))
      ensures forall c :: c in rooms && Some(c) != old(FindByHost(sock)) ==> rooms[c].State() == old(rooms[c].State())
    {
      var f := FindByHost(sock);
      if f.None? {
        return NoRoom;
      }
      var ok := rooms[f.value].StartGame();
      return if ok then Started else TooFewPlayers;
    }

    /** `submitTopic` from connection `sock`. */
    method SubmitTopic(sock: string, topic: string)
      requires Valid()
      modifies rooms.Values
      ensures Valid() && unchanged(this)
      ensures var f := old(FindBySocket(sock));
        f.Some? ==> rooms[f.value].State() == SubmitTopicSpec(old(rooms[f.value].State()), sock, topic)
      ensures forall c :: c in rooms && Some(c) != old(FindBySocket(sock)) ==> rooms[c].State() == old(rooms[c].State())
    {
      var f := FindBySocket(sock);
      if f.None? {
        return;
      }
      rooms[f.value].SubmitTopic(sock, topic);
    }

    /** `submitDrawing` (`isGuess == false`) and `submitGuess` (`isGuess`,
        the text trimmed) from connection `sock`. */
    method SubmitEntry(sock: string, isGuess: bool, data: string)
      requires Valid()
      modifies rooms.Values
      ensures Valid() && unchanged(this)
      ensures var f := old(FindBySocket(sock));
        var kind := if isGuess then Guess else Drawing;
        var content := if isGuess then Trim(data) else data;
        f.Some? ==> rooms[f.value].State() == SubmitEntrySpec(old(rooms[f.value].State()), sock, kind, content)
      ensures forall c :: c in rooms && Some(c) != old(FindBySocket(sock)) ==> rooms[c].State() == old(rooms[c].State())
    {
      var f := FindBySocket(sock);
      if f.None? {
        return;
      }
      if isGuess {
        EntryIn(f.value, sock, Guess, Trim(data));
      } else {
        EntryIn(f.value, sock, Drawing, data);
      }
    }

    /** `submitEntry` once room `c` is found. */
    method EntryIn(c: string, sock: string, kind: Kind, content: string)
      requires Valid() && c in rooms
      modifies rooms[c]
      ensures Valid() && unchanged(this)
      ensures rooms[c].State() == SubmitEntrySpec(old(rooms[c].State()), sock, kind, content)
      ensures forall d :: d in rooms && d != c ==> rooms[d].State() == old(rooms[d].State())
    {
      var r := rooms[c];
      assert forall d :: d in rooms && d != c ==> rooms[d] != r;
      r.SubmitEntry(sock, kind, content);
      forall d | d in rooms
        ensures rooms[d].code == d && rooms[d].Valid()
      {
        if d != c {
          assert rooms[d] != r;
        }
      }
    }

    /** `startReveal` from connection `sock`, on the room it hosts. */
    method StartReveal(sock: string)
      requires Valid()
      modifies rooms.Values
      ensures Valid() && unchanged(this)
      ensures var f := old(FindByHost(sock));
        f.Some? ==> rooms[f.value].State() == StartRevealSpec(old(rooms[f.value].State()))
      ensures forall c :: c in rooms && Some(c) != old(FindByHost(sock)) ==> rooms[c].State() == old(rooms[c].State())
    {
      var f := FindByHost(sock);
      if f.None? {
        return;
      }
      rooms[f.value].StartReveal();
    }

    /** `nextRevealStep` from connection `sock`, on the room it hosts. */
    method NextRevealStep(sock: string)
      requires Valid()
      modifies rooms.Values
      ensures Valid() && unchanged(this)
      ensures var f := old(FindByHost(sock));
        f.Some? ==> rooms[f.value].State() == NextRevealStepSpec(old(rooms[f.value].State()))
      ensures forall c :: c in rooms && Some(c) != old(FindByHost(sock)) ==> rooms[c].State() == old(rooms[c].State())
    {
      var f := FindByHost(sock);
      if f.None? {
        return;
      }
      rooms[f.value].NextRevealStep();
    }

    /** `nextChain` from connection `sock`, on the room it hosts. */
    method NextChain(sock: string)
      requires Valid()
      modifies rooms.Values
      ensures Valid() && unchanged(this)
      ensures var f := old(FindByHost(sock));
        f.Some? ==> rooms[f.value].State() == NextChainSpec(old(rooms[f.value].State()))
      ensures forall c :: c in rooms && Some(c) != old(FindByHost(sock)) ==> rooms[c].State() == old(rooms[c].State())
    {
      var f := FindByHost(sock);
      if f.None? {
        return;
      }
      rooms[f.value].NextChain();
    }

    /** `newGame` from connection `sock`, on the room it hosts. */
    method NewGame(sock: string)
      requires Valid()
      modifies rooms.Values
      ensures Valid() && unchanged(this)
      ensures var f := old(FindByHost(sock));
        f.Some? ==> rooms[f.value].State() == NewGameSpec(old(rooms[f.value].State()))
      ensures forall c :: c in rooms && Some(c) != old(FindByHost(sock)) ==> rooms[c].State() == old(rooms[c].State())
    {
      var f := FindByHost(sock);
      if f.None? {
        return;
      }
      rooms[f.value].NewGame();
    }

    /** `backToLobby` from connection `sock`, on the room it hosts. */
    method BackToLobby(sock: string)
      requires Valid()
      modifies rooms.Values
      ensures Valid() && unchanged(this)
      ensures var f := old(FindByHost(sock));
        f.Some? ==> rooms[f.value].State() == BackToLobbySpec(old(rooms[f.value].State()))
      ensures forall c :: c in rooms && Some(c) != old(FindByHost(sock)) ==> rooms[c].State() == old(rooms[c].State())
    {
      var f := FindByHost(sock);
      if f.None? {
        return;
      }
      rooms[f.value].BackToLobby();
    }

    /** `joinRoom` with the typed code (`None` when the client sent none).
        `None` answers "room not found". */
    method JoinRoom(sock: string, sid: string, name: string, code: Option<string>) returns (reply: Option<JoinReply>)
      requires Valid()
      modifies this, rooms.Values
      ensures Valid() && rooms == old(rooms) && order == old(order)
      ensures reply.None? <==> code.None? || Upper(code.value) !in rooms
      ensures reply.Some? ==> var r := rooms[Upper(code.value)];
        && reply.value == JoinReplyFor(old(r.State()), name)
        && r.State() == JoinSpec(old(r.State()), sock, sid, name)
        && sessions == JoinSessions(old(sessions), old(r.State()), sid, name)
      ensures forall c :: c in rooms && (reply.None? || c != Upper(code.value)) ==> rooms[c].State() == old(rooms[c].State())
    {
      if code.None? || Upper(code.value) !in rooms {
        return None;
      }
      var rep := JoinIn(Upper(code.value), sock, sid, name);
      return Some(rep);
    }

    /** The body of `joinRoom` once room `c` is found. */
    method JoinIn(c: string, sock: string, sid: string, name: string) returns (reply: JoinReply)
      requires Valid() && c in rooms
      modifies this, rooms[c]
      ensures Valid() && rooms == old(rooms) && order == old(order)
      ensures var r := rooms[c];
        && reply == JoinReplyFor(old(r.State()), name)
        && r.State() == JoinSpec(old(r.State()), sock, sid, name)
        && sessions == JoinSessions(old(sessions), old(r.State()), sid, name)
      ensures forall d :: d in rooms && d != c ==> rooms[d].State() == old(rooms[d].State())
    {
      var before := rooms[c].State();
      reply := JoinSeat(c, sock, sid, name);
      sessions := JoinSessions(sessions, before, sid, name);
      assert forall d :: d in rooms ==> rooms[d].code == d && rooms[d].Valid();
    }

    /** Room `c` answers a join. */
    method JoinSeat(c: string, sock: string, sid: string, name: string) returns (reply: JoinReply)
      requires Valid() && c in rooms
      modifies rooms[c]
      ensures Valid() && unchanged(this)
      ensures reply == JoinReplyFor(old(rooms[c].State()), name)
      ensures rooms[c].State() == JoinSpec(old(rooms[c].State()), sock, sid, name)
      ensures forall d :: d in rooms && d != c ==> rooms[d].State() == old(rooms[d].State())
    {
      var r := rooms[c];
      reply := r.Join(sock, sid, name);
      forall d | d in rooms
        ensures rooms[d].code == d && rooms[d].Valid()
      {
        if d != c {
          assert rooms[d] != r;
        }
      }
    }

    /** Forget room `code`: it leaves `rooms` and `order`. */
    method DropRoom(code: string)
      requires Valid() && code in rooms
      modifies this
      ensures Valid() && rooms == old(rooms) - {code} && sessions == old(sessions)
      ensures forall c :: c in order <==> c in old(order) && c != code
      ensures order == WithoutCode(old(order), code)
    {
      rooms := rooms - {code};
      order := WithoutCode(order, code);
      assert forall k :: 0 <= k < |order| ==> order[k] in order;
    }

    /** `leaveRoom` from connection `sock`; `false` when the caller is in no
        room.  A room left empty is deleted. */
    method LeaveRoom(sock: string) returns (ok: bool)
      requires Valid()
      modifies this, rooms.Values
      ensures Valid()
      ensures var f := old(FindBySocket(sock));
        && ok == f.Some?
        && (f.None? ==> unchanged(this))
        && (f.Some? ==>
              var r := old(rooms[f.value]);
              var j := FindIndex(old(r.players), BySocket(sock));
              && r.State() == LeaveSpec(old(r.State()), j)
              && sessions == old(sessions) - {old(r.players)[j].sessionId}
              && rooms == (if r.players == [] then old(rooms) - {f.value} else old(rooms))
              && order == if r.players == [] then WithoutCode(old(order), f.value) else old(order))
      ensures forall c :: c in rooms && Some(c) != old(FindBySocket(sock)) ==> rooms[c].State() == old(rooms[c].State())
    {
      var f := FindBySocket(sock);
      if f.None? {
        return false;
      }
      LeaveAt(f.value, FindIndex(rooms[f.value].players, BySocket(sock)));
      return true;
    }

    /** The body of `leaveRoom` once seat `j` of room `c` is found: the
        departure, then the deletion of a room it leaves empty. */
    method LeaveAt(c: string, j: int)
      requires Valid() && c in rooms && 0 <= j < |rooms[c].players|
      modifies this, rooms[c]
      ensures Valid()
      ensures var r := old(rooms[c]);
        && r.State() == LeaveSpec(old(r.State()), j)
        && sessions == old(sessions) - {old(r.players)[j].sessionId}
        && rooms == (if r.players == [] then old(rooms) - {c} else old(rooms))
        && order == if r.players == [] then WithoutCode(old(order), c) else old(order)
      ensures forall d :: d in rooms && d != c ==> rooms[d].State() == old(rooms[d].State())
    {
      var r := rooms[c];
      LeaveSeat(c, j);
      ghost var after := r.State();
      ghost var kept := rooms;
      if |r.players| == 0 {
        DropRoom(c);
      }
      assert r.State() == after;
      forall d | d in rooms && d != c
        ensures rooms[d].State() == old(rooms[d].State())
      {
        assert d in kept && rooms[d] == kept[d];
      }
    }

    /** Seat `j` of room `c` leaves and its session is forgotten. */
    method LeaveSeat(c: string, j: int)
      requires Valid() && c in rooms && 0 <= j < |rooms[c].players|
      modifies this, rooms[c]
      ensures Valid() && rooms == old(rooms) && order == old(order)
      ensures var r := rooms[c];
        && r.State() == LeaveSpec(old(r.State()), j)
        && sessions == old(sessions) - {old(r.players)[j].sessionId}
      ensures forall d :: d in rooms && d != c ==> rooms[d].State() == old(rooms[d].State())
    {
      var r := rooms[c];
      var sid := r.players[j].sessionId;
      r.Leave(j);
      sessions := sessions - {sid};
    }

    /** `kickPlayer` of session `target`, sent from connection `sock`; `None`
        when the caller is in no room.  The target's session is forgotten and
        a room left empty is deleted. */
    method KickPlayer(sock: string, target: string) returns (reply: Option<KickReply>)
      requires Valid()
      modifies this, rooms.Values
      ensures Valid()
      ensures var f := old(FindBySocket(sock));
        && (f.None? ==> reply.None? && unchanged(this))
        && (f.Some? ==>
              var r := old(rooms[f.value]);
              && reply == Some(KickReplyFor(old(r.State()), target))
              && r.State() == KickSpec(old(r.State()), target)
              && sessions == (if reply.value == KickOk then old(sessions) - {target} else old(sessions))
              && rooms == (if reply.value == KickOk && r.players == [] then old(rooms) - {f.value} else old(rooms))
              && order == if reply.value == KickOk && r.players == [] then WithoutCode(old(order), f.value) else old(order))
      ensures forall c :: c in rooms && Some(c) != old(FindBySocket(sock)) ==> rooms[c].State() == old(rooms[c].State())
    {
      var f := FindBySocket(sock);
      if f.None? {
        return None;
      }
      var rep := KickAt(f.value, target);
      return Some(rep);
    }

    /** The body of `kickPlayer` once room `c` is found: the kick, then the
        deletion of a room it leaves empty. */
    method KickAt(c: string, target: string) returns (reply: KickReply)
      requires Valid() && c in rooms
      modifies this, rooms[c]
      ensures Valid()
      ensures var r := old(rooms[c]);
        && reply == KickReplyFor(old(r.State()), target)
        && r.State() == KickSpec(old(r.State()), target)
        && sessions == (if reply == KickOk then old(sessions) - {target} else old(sessions))
        && rooms == (if reply == KickOk && r.players == [] then old(rooms) - {c} else old(rooms))
        && order == if reply == KickOk && r.players == [] then WithoutCode(old(order), c) else old(order)
      ensures forall d :: d in rooms && d != c ==> rooms[d].State() == old(rooms[d].State())
    {
      var r := rooms[c];
      reply := KickIn(c, target);
      ghost var after := r.State();
      ghost var kept := rooms;
      if reply == KickOk && |r.players| == 0 {
        DropRoom(c);
      }
      assert r.State() == after;
      forall d | d in rooms && d != c
        ensures rooms[d].State() == old(rooms[d].State())
      {
        assert d in kept && rooms[d] == kept[d];
      }
    }

    /** The body of `kickPlayer` once room `c` is found, short of deleting
        the room. */
    method KickIn(c: string, target: string) returns (reply: KickReply)
      requires Valid() && c in rooms
      modifies this, rooms[c]
      ensures Valid() && rooms == old(rooms) && order == old(order)
      ensures var r := rooms[c];
        && reply == KickReplyFor(old(r.State()), target)
        && r.State() == KickSpec(old(r.State()), target)
        && sessions == (if reply == KickOk then old(sessions) - {target} else old(sessions))
      ensures forall d :: d in rooms && d != c ==> rooms[d].State() == old(rooms[d].State())
    {
      reply := rooms[c].Kick(target);
      if reply == KickOk {
        sessions := sessions - {target};
      }
    }

    /** `disconnect` of connection `sock`: walk the rooms in order and take
        the first seat on that connection offline, in the first room that has
        one. */
    method Disconnect(sock: string)
      requires Valid()
      modifies rooms.Values
      ensures Valid() && unchanged(this)
      ensures var f := old(FindBySocket(sock));
        f.Some? ==> rooms[f.value].State() ==
                      DisconnectSpec(old(rooms[f.value].State()), FindIndex(old(rooms[f.value].players), BySocket(sock)))
      ensures forall c :: c in rooms && Some(c) != old(FindBySocket(sock)) ==> rooms[c].State() == old(rooms[c].State())
    {
      var i := 0;
      while i < |order| && FindIndex(rooms[order[i]].players, BySocket(sock)) == -1
        invariant 0 <= i <= |order|
        invariant FindFrom(sock, false, i) == FindBySocket(sock)
      {
        assert !Matches(order[i], sock, false);
        i := i + 1;
      }
      if i == |order| {
        return;
      }
      assert Matches(order[i], sock, false);
      DisconnectSeat(order[i], FindIndex(rooms[order[i]].players, BySocket(sock)));
    }

    /** Seat `j` of room `c` goes offline. */
    method DisconnectSeat(c: string, j: int)
      requires Valid() && c in rooms && 0 <= j < |rooms[c].players|
      modifies rooms[c]
      ensures Valid() && unchanged(this)
      ensures rooms[c].State() == DisconnectSpec(old(rooms[c].State()), j)
      ensures forall d :: d in rooms && d != c ==> rooms[d].State() == old(rooms[d].State())
    {
      var r := rooms[c];
      assert forall d :: d in rooms && d != c ==> rooms[d] != r;
      r.Disconnect(j);
      forall d | d in rooms
        ensures rooms[d].code == d && rooms[d].Valid()
      {
        if d != c {
          assert rooms[d] != r;
        }
      }
    }
  }

  /** The session registry after `joinRoom` answered on room `s`: a rejoin
      moves the dropped seat's entry to the new session, a fresh join adds
      one, any refusal changes nothing. */
  function JoinSessions(ss: map<string, Session>, s: Snapshot, sid: string, name: string): map<string, Session>
  {
    match JoinReplyFor(s, name)
    case Rejoined =>
      var j := FindIndex(s.players, Dropped(name));
      (ss - {s.players[j].sessionId})[sid := Session(s.code, name)]
    case Joined => ss[sid := Session(s.code, name)]
    case _ => ss
  }

  /** `order` without `code`: deleting a key keeps the other keys in
      creation order. */
  function WithoutCode(cs: seq<string>, code: string): (r: seq<string>)
    ensures forall c :: c in r <==> c in cs && c != code
  {
    Filter(cs, OtherCode(code))
  }

  function OtherCode(code: string): string -> bool {
    (c: string) => c != code
  }

  /** Deleting a code keeps the remaining codes in creation order. */
  lemma WithoutCodeKeepsOrder(a: seq<string>, b: seq<string>, code: string)
    ensures WithoutCode(a + b, code) == WithoutCode(a, code) + WithoutCode(b, code)
    ensures |a| == 1 ==> WithoutCode(a, code) == (if a[0] == code then [] else a)
  {
    FilterAppend(a, b, OtherCode(code));
  }
}
