/** The values the room engine works with: players, chain entries, phases and
    the messages it sends to connections.  A sent message is recorded as an
    `Emit` (connection id, message) appended to an outbox; delivery is not
    modelled. */
module Types {

  datatype Option<T> = None | Some(value: T)

  datatype Phase = Lobby | Topics | Playing | Reveal

  /** The `type` of a chain entry: 'topic', 'drawing' or 'guess'. */
  datatype Kind = Topic | Drawing | Guess

  datatype Entry = Entry(kind: Kind, content: string, playerName: string)

  datatype Chain = Chain(topicPlayerIdx: int, topicPlayerName: string, entries: seq<Entry>)

  /** A roster slot.  `socketId` is the current connection (`None` while
      offline); `sessionId` is the client-held token that survives reconnects.
      A player that never was kicked has `kicked == false` (the server leaves
      the field undefined, which it reads as false). */
  datatype Player = Player(socketId: Option<string>, sessionId: string, name: string, online: bool, kicked: bool)

  /** What `roomState` and `playersStatus` show of a player. */
  datatype PlayerView = PlayerView(name: string, online: bool, kicked: bool, sessionId: string)

  datatype Message =
    | RoomState(code: string, players: seq<PlayerView>, hostName: Option<string>, phase: Phase, isHost: bool)
    | PlayersStatus(players: seq<PlayerView>)
    | EnterTopic(isHost: bool)
    | TopicSubmitted
    | TopicProgress(submitted: int, total: int)
      // `task` is Drawing for the server's 'draw' and Guess for 'guess'
    | YourTurn(task: Kind, prompt: string, promptType: Kind, roundNumber: int, totalRounds: int)
    | WaitingForOthers(submitted: int, total: int)
    | RoundProgress(submitted: int, total: int)
    | AllRevealed(chains: seq<Chain>, isHost: bool)
    | StartChainReveal(chainIdx: int, totalChains: int, topicPlayerName: string, totalSteps: int, firstEntry: Entry, isHost: bool)
    | RevealStep(chainIdx: int, stepIdx: int, totalSteps: int, entry: Entry, isLast: bool,
                 topicPlayerName: string, originalTopic: string, isHost: bool)
    | ChainComplete(chainIdx: int, chain: Chain, hasMoreChains: bool, isHost: bool)
    | PlayerReconnected(name: string, onlineCount: int)
    | PlayerWentOffline(name: string, onlineCount: int)

  datatype Emit = Emit(to: string, msg: Message)

  function View(p: Player): PlayerView {
    PlayerView(p.name, p.online, p.kicked, p.sessionId)
  }

  function Views(ps: seq<Player>): (r: seq<PlayerView>)
    ensures |r| == |ps| && forall i :: 0 <= i < |ps| ==> r[i] == View(ps[i])
  {
    seq(|ps|, i requires 0 <= i < |ps| => View(ps[i]))
  }

  /** `broadcast`: one message to each player that has a connection, in roster
      order, the payload computed per recipient. */
  function Broadcast(ps: seq<Player>, mk: Player -> Message): (r: seq<Emit>)
    ensures forall e :: e in r ==> exists i :: 0 <= i < |ps| && ps[i].socketId == Some(e.to) && e.msg == mk(ps[i])
    ensures forall i :: 0 <= i < |ps| && ps[i].socketId.Some? ==> Emit(ps[i].socketId.value, mk(ps[i])) in r
    ensures |r| <= |ps|
  {
    if ps == [] then []
    else
      var rest := Broadcast(ps[1..], mk);
      assert forall i :: 1 <= i < |ps| ==> ps[i] == ps[1..][i - 1];
      (if ps[0].socketId.Some? then [Emit(ps[0].socketId.value, mk(ps[0]))] else []) + rest
  }

  /** Broadcasting to two rosters one after the other is broadcasting to the
      joined roster: the messages keep roster order, and a single seat gets
      exactly one message when it has a connection and none otherwise. */
  lemma {:induction false} BroadcastAppend(a: seq<Player>, b: seq<Player>, mk: Player -> Message)
    ensures Broadcast(a + b, mk) == Broadcast(a, mk) + Broadcast(b, mk)
    ensures |a| == 1 ==> Broadcast(a, mk) == (if a[0].socketId.Some? then [Emit(a[0].socketId.value, mk(a[0]))] else [])
  {
    if a != [] {
      var head := if a[0].socketId.Some? then [Emit(a[0].socketId.value, mk(a[0]))] else [];
      calc {
        Broadcast(a + b, mk);
        { assert (a + b)[0] == a[0] && (a + b)[1..] == a[1..] + b; }
        head + Broadcast(a[1..] + b, mk);
        { BroadcastAppend(a[1..], b, mk); }
        head + (Broadcast(a[1..], mk) + Broadcast(b, mk));
        (head + Broadcast(a[1..], mk)) + Broadcast(b, mk);
      }
    } else {
      assert a + b == b;
    }
  }

  /** `onlineCount`: how many roster entries are flagged online. */
  function OnlineCount(ps: seq<Player>): (k: nat)
    ensures k <= |ps|
    ensures k == |ps| <==> forall i :: 0 <= i < |ps| ==> ps[i].online
    ensures k == 0 <==> forall i :: 0 <= i < |ps| ==> !ps[i].online
  {
    if ps == [] then 0
    else
      assert forall i :: 1 <= i < |ps| ==> ps[i] == ps[1..][i - 1];
      (if ps[0].online then 1 else 0) + OnlineCount(ps[1..])
  }

  /** `findIndex`: the first index whose player satisfies `pred`, or -1. */
  function FindIndex(ps: seq<Player>, pred: Player -> bool): (i: int)
    ensures -1 <= i < |ps|
    ensures i >= 0 ==> pred(ps[i]) && forall j :: 0 <= j < i ==> !pred(ps[j])
    ensures i == -1 <==> forall j :: 0 <= j < |ps| ==> !pred(ps[j])
  {
    if ps == [] then -1
    else if pred(ps[0]) then 0
    else
      var k := FindIndex(ps[1..], pred);
      assert forall j :: 1 <= j < |ps| ==> ps[j] == ps[1..][j - 1];
      if k == -1 then -1 else k + 1
  }

  /** JavaScript's `filter`: the elements `keep` accepts, in their order. */
  function Filter<T(!new)>(xs: seq<T>, keep: T -> bool): (r: seq<T>)
    ensures |r| <= |xs|
    ensures forall x :: x in r <==> x in xs && keep(x)
  {
    if xs == [] then []
    else (if keep(xs[0]) then [xs[0]] else []) + Filter(xs[1..], keep)
  }

  /** `filter` keeps order: filtering a joined list is joining the filtered
      parts, and a single element is kept exactly when `keep` accepts it. */
  lemma {:induction false} FilterAppend<T(!new)>(a: seq<T>, b: seq<T>, keep: T -> bool)
    ensures Filter(a + b, keep) == Filter(a, keep) + Filter(b, keep)
    ensures |a| == 1 ==> Filter(a, keep) == (if keep(a[0]) then a else [])
  {
    if a != [] {
      var head := if keep(a[0]) then [a[0]] else [];
      calc {
        Filter(a + b, keep);
        { assert (a + b)[0] == a[0] && (a + b)[1..] == a[1..] + b; }
        head + Filter(a[1..] + b, keep);
        { FilterAppend(a[1..], b, keep); }
        head + (Filter(a[1..], keep) + Filter(b, keep));
        (head + Filter(a[1..], keep)) + Filter(b, keep);
      }
    } else {
      assert a + b == b;
    }
  }

  /** A filtered roster starts with the first seat `keep` accepts, and is
      empty exactly when there is none. */
  lemma {:induction false} FilterFirst(ps: seq<Player>, keep: Player -> bool)
    ensures var k := FindIndex(ps, keep);
      && (Filter(ps, keep) == [] <==> k == -1)
      && (k >= 0 ==> Filter(ps, keep)[0] == ps[k])
  {
    if ps != [] && !keep(ps[0]) {
      FilterFirst(ps[1..], keep);
      assert forall j :: 1 <= j < |ps| ==> ps[j] == ps[1..][j - 1];
    }
  }

  function BySession(sid: string): Player -> bool {
    (p: Player) => p.sessionId == sid
  }

  function BySocket(sock: string): Player -> bool {
    (p: Player) => p.socketId == Some(sock)
  }

  /** `chains[c].entries.push(e)`: chain `c` grows by `e`, the others stay. */
  function AppendEntry(cs: seq<Chain>, c: int, e: Entry): (r: seq<Chain>)
    requires 0 <= c < |cs|
    ensures |r| == |cs| && r[c].entries == cs[c].entries + [e]
    ensures r[c].topicPlayerIdx == cs[c].topicPlayerIdx && r[c].topicPlayerName == cs[c].topicPlayerName
    ensures forall d :: 0 <= d < |cs| && d != c ==> r[d] == cs[d]
  {
    cs[c := cs[c].(entries := cs[c].entries + [e])]
  }

  /** The characters JavaScript's `String.prototype.trim` removes: white space
      and line terminators. */
  predicate IsJsSpace(ch: char) {
    || ch == ' ' || ch == '\t' || ch == '\n' || ch == '\r' || ch == '\U{000B}' || ch == '\U{000C}'
    || ch == '\U{00A0}' || ch == '\U{1680}' || ('\U{2000}' <= ch <= '\U{200A}')
    || ch == '\U{2028}' || ch == '\U{2029}' || ch == '\U{202F}' || ch == '\U{205F}'
    || ch == '\U{3000}' || ch == '\U{FEFF}'
  }

  function TrimStart(s: string): (r: string)
    ensures |r| <= |s| && r == s[|s| - |r|..]
    ensures r == [] || !IsJsSpace(r[0])
    ensures forall k :: 0 <= k < |s| - |r| ==> IsJsSpace(s[k])
  {
    if s != [] && IsJsSpace(s[0]) then TrimStart(s[1..]) else s
  }

  function TrimEnd(s: string): (r: string)
    ensures |r| <= |s| && r == s[..|r|]
    ensures r == [] || !IsJsSpace(r[|r| - 1])
    ensures forall k :: |r| <= k < |s| ==> IsJsSpace(s[k])
  {
    if s != [] && IsJsSpace(s[|s| - 1]) then TrimEnd(s[..|s| - 1]) else s
  }

  /** `trim()`: the longest slice of `s` that neither starts nor ends with
      white space; everything cut off is white space. */
  function Trim(s: string): (r: string)
    ensures exists a, b ::
              && 0 <= a <= b <= |s| && r == s[a..b]
              && (forall k :: 0 <= k < a ==> IsJsSpace(s[k]))
              && (forall k :: b <= k < |s| ==> IsJsSpace(s[k]))
    ensures r == [] || (!IsJsSpace(r[0]) && !IsJsSpace(r[|r| - 1]))
  {
    var t := TrimStart(s);
    var r := TrimEnd(t);
    var a := |s| - |t|;
    assert r == s[a..a + |r|];
    r
  }

  /** Per-recipient payloads for `broadcast`.  Each names the payload the
      server computes for recipient `p`; `host` is the room's host session. */
  function Everyone(m: Message): Player -> Message {
    (p: Player) => m
  }

  function AllRevealedTo(cs: seq<Chain>, host: string): Player -> Message {
    (p: Player) => AllRevealed(cs, p.sessionId == host)
  }

  function EnterTopicTo(host: string): Player -> Message {
    (p: Player) => EnterTopic(p.sessionId == host)
  }

  function RoomStateTo(code: string, ps: seq<Player>, phase: Phase, host: string): Player -> Message {
    (p: Player) => RoomState(code, Views(ps), if |ps| > 0 then Some(ps[0].name) else None, phase, p.sessionId == host)
  }

  function StartChainRevealTo(idx: int, total: int, c: Chain, host: string): Player -> Message
    requires |c.entries| > 0
  {
    (p: Player) => StartChainReveal(idx, total, c.topicPlayerName, |c.entries|, c.entries[0], p.sessionId == host)
  }

  function RevealStepTo(idx: int, step: int, c: Chain, host: string): Player -> Message
    requires 0 <= step < |c.entries|
  {
    (p: Player) => RevealStep(idx, step, |c.entries|, c.entries[step], step >= |c.entries| - 1,
                              c.topicPlayerName, c.entries[0].content, p.sessionId == host)
  }

  function ChainCompleteTo(idx: int, c: Chain, more: bool, host: string): Player -> Message {
    (p: Player) => ChainComplete(idx, c, more, p.sessionId == host)
  }
}
