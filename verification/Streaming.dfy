/** Reassembly of proposal streams whose messages arrive in any order, with repeats and mixed
    with the messages of other streams. */
module Streaming {

  import opened Types
  import opened Ordering

  datatype ProposalInit = ProposalInit(height: U64Nat, round: Round, proposer: Address)

  datatype ProposalPart =
    | InitPart(init: ProposalInit)
    | DataPart(bytes: Bytes, requests: seq<Bytes>)
    | BlobPart(sidecar: Sidecar)
    | NoticePart(notice: Notice)
    | FinPart(signature: Signature)

  datatype Content = Data(part: ProposalPart) | Fin

  /** A stream message: the first has sequence 0, and a `Fin` closes the stream. */
  datatype Msg = Msg(sequence: nat, content: Content)

  /** A stream is known by the sending peer and the stream id. */
  type Key = (nat, Bytes)

  datatype ProposalParts = ProposalParts(init: ProposalInit, parts: seq<ProposalPart>)

  // ----- What one message does to one stream -----

  /** The state of a stream: the buffered messages by sequence number, the init data, the numbers
      ever seen, and the length that a `Fin` announced. */
  datatype Stream = Stream(
    held: map<nat, Content>, init: Option<ProposalInit>, seen: set<nat>, total: nat, fin: bool)

  const NEW_STREAM := Stream(map[], None, {}, 0, false)

  function DataIn(held: map<nat, Content>, keys: seq<nat>): seq<ProposalPart>
    requires forall k :: k in keys ==> k in held
  {
    if keys == [] then []
    else
      var rest := DataIn(held, keys[1..]);
      if held[keys[0]].Data? then [held[keys[0]].part] + rest else rest
  }

  /** The data of the buffered messages in sequence order. */
  function Drained(held: map<nat, Content>): seq<ProposalPart> {
    DataIn(held, Ascending(held.Keys))
  }

  predicate Done(s: Stream) {
    s.init.Some? && s.fin && |s.held| == s.total
  }

  function InitOf(content: Content): Option<ProposalInit> {
    if content.Data? && content.part.InitPart? then Some(content.part.init) else None
  }

  /** A message that has not been seen is noted and buffered. */
  function Noted(s: Stream, msg: Msg): Stream {
    s.(init := if msg.sequence == 0 then InitOf(msg.content) else s.init,
       fin := s.fin || msg.content.Fin?,
       total := if msg.content.Fin? then msg.sequence + 1 else s.total,
       held := s.held[msg.sequence := msg.content])
  }

  /** `StreamState::insert`: a complete stream is handed out and its buffer and init are taken. */
  function Insert(s: Stream, msg: Msg): (Stream, Option<ProposalParts>) {
    var noted := Noted(s, msg);
    if Done(noted) then
      (noted.(init := None, held := map[]),
       Some(ProposalParts(noted.init.value, Drained(noted.held))))
    else (noted, None)
  }

  type Streams = map<Key, Stream>

  function StreamAt(streams: Streams, key: Key): Stream {
    if key in streams then streams[key] else NEW_STREAM
  }

  /** `PartStreamsMap::insert`: repeats are dropped, and a stream that is still done afterwards is
      removed. */
  function Receive(streams: Streams, key: Key, msg: Msg): (Streams, Option<ProposalParts>) {
    var s := StreamAt(streams, key);
    if msg.sequence in s.seen then (streams[key := s], None)
    else
      var (after, out) := Insert(s.(seen := s.seen + {msg.sequence}), msg);
      if Done(after) then (streams - {key}, out) else (streams[key := after], out)
  }

  // ----- Runs -----

  type Event = (Key, Msg)

  /** The streams after a run that starts with none. */
  function Play(events: seq<Event>): Streams
    decreases |events|
  {
    if events == [] then map[]
    else
      var n := |events| - 1;
      Receive(Play(events[..n]), events[n].0, events[n].1).0
  }

  /** What the insertion of message `t` of a run returns. */
  function Output(events: seq<Event>, t: nat): Option<ProposalParts>
    requires t < |events|
  {
    Receive(Play(events[..t]), events[t].0, events[t].1).1
  }

  lemma PlayNext(events: seq<Event>, t: nat)
    requires t < |events|
    ensures Play(events[..t + 1]) == Receive(Play(events[..t]), events[t].0, events[t].1).0
  {
    assert events[..t + 1][..t] == events[..t];
  }

  /** A message touches no other stream. */
  lemma ReceiveFrame(streams: Streams, key: Key, msg: Msg, other: Key)
    requires other != key
    ensures StreamAt(Receive(streams, key, msg).0, other) == StreamAt(streams, other)
  {
  }

  // ----- No stream is delivered twice -----

  /** An inserted message leaves the stream not done: a delivery takes the init data first. So the
      branch that removes a stream is never taken and the numbers seen are never forgotten. */
  lemma NeverDoneAfter(s: Stream, msg: Msg)
    ensures !Done(Insert(s, msg).0)
  {
  }

  ghost predicate InitSeen(s: Stream) {
    s.init.Some? ==> 0 in s.seen
  }

  /** A stream that has given up its init data can never be complete again. */
  ghost predicate Spent(s: Stream) {
    s.init.None? && 0 in s.seen
  }

  lemma ReceiveStream(streams: Streams, key: Key, msg: Msg)
    requires InitSeen(StreamAt(streams, key))
    ensures var (after, out) := Receive(streams, key, msg);
            && InitSeen(StreamAt(after, key))
            && (Spent(StreamAt(streams, key)) ==> Spent(StreamAt(after, key)) && out.None?)
            && (out.Some? ==> Spent(StreamAt(after, key)))
  {
    var s := StreamAt(streams, key);
    NeverDoneAfter(s.(seen := s.seen + {msg.sequence}), msg);
  }

  lemma {:induction false} InitsSeen(events: seq<Event>, key: Key)
    ensures InitSeen(StreamAt(Play(events), key))
    decreases |events|
  {
    if events != [] {
      var n := |events| - 1;
      InitsSeen(events[..n], key);
      if events[n].0 == key {
        ReceiveStream(Play(events[..n]), key, events[n].1);
      } else {
        ReceiveFrame(Play(events[..n]), events[n].0, events[n].1, key);
      }
    }
  }

  lemma {:induction false} StaysSpent(events: seq<Event>, key: Key, i: nat, j: nat)
    requires i < j <= |events| && events[i].0 == key && Output(events, i).Some?
    ensures Spent(StreamAt(Play(events[..j]), key))
    decreases j
  {
    PlayNext(events, j - 1);
    InitsSeen(events[..j - 1], key);
    var streams, event := Play(events[..j - 1]), events[j - 1];
    if j - 1 > i {
      StaysSpent(events, key, i, j - 1);
    }
    if event.0 == key {
      ReceiveStream(streams, key, event.1);
    } else {
      ReceiveFrame(streams, event.0, event.1, key);
    }
  }

  /** No stream of any kind is delivered twice, whatever messages peers send. */
  lemma NeverTwice(events: seq<Event>, i: nat, j: nat)
    requires i < j < |events| && events[i].0 == events[j].0
    requires Output(events, i).Some?
    ensures Output(events, j).None?
  {
    var key := events[i].0;
    StaysSpent(events, key, i, j);
    InitsSeen(events[..j], key);
    ReceiveStream(Play(events[..j]), key, events[j].1);
  }

  // ----- A sent stream is delivered exactly once, in order -----

  /** Message `i` of the stream made of the parts `p`. */
  function SentAt(p: seq<ProposalPart>, i: nat): Msg {
    Msg(i, if i < |p| then Data(p[i]) else Fin)
  }

  /** A list of parts that opens with its init part, as every proposal does. */
  ghost predicate Opens(p: seq<ProposalPart>) {
    p != [] && p[0].InitPart?
  }

  /** Every message of the run under this key is one of the stream's messages. */
  ghost predicate Carries(events: seq<Event>, key: Key, p: seq<ProposalPart>) {
    forall t :: 0 <= t < |events| && events[t].0 == key ==>
      events[t].1.sequence <= |p| && events[t].1 == SentAt(p, events[t].1.sequence)
  }

  ghost function Arrived(events: seq<Event>, key: Key): set<nat> {
    set t | 0 <= t < |events| && events[t].0 == key :: events[t].1.sequence
  }

  ghost function UpTo(n: nat): (s: set<nat>)
    ensures forall i :: i in s <==> 0 <= i <= n
    ensures |s| == n + 1
  {
    if n == 0 then {0} else UpTo(n - 1) + {n}
  }

  ghost function HeldOf(p: seq<ProposalPart>, arrived: set<nat>): map<nat, Content> {
    map i | i in arrived :: SentAt(p, i).content
  }

  /** The messages that have arrived, all of them still buffered. */
  ghost function Partial(p: seq<ProposalPart>, arrived: set<nat>): Stream
    requires Opens(p)
  {
    var fin := |p| in arrived;
    Stream(HeldOf(p, arrived), if 0 in arrived then Some(p[0].init) else None, arrived,
           if fin then |p| + 1 else 0, fin)
  }

  /** The state of a stream is a function of which of its messages have arrived. */
  ghost function Expected(p: seq<ProposalPart>, arrived: set<nat>): Stream
    requires Opens(p)
  {
    if arrived == UpTo(|p|) then Partial(p, arrived).(init := None, held := map[])
    else Partial(p, arrived)
  }

  lemma {:induction false} SubsetSize(a: set<nat>, b: set<nat>)
    requires a <= b && |a| == |b|
    ensures a == b
  {
    if a != {} {
      var x :| x in a;
      SubsetSize(a - {x}, b - {x});
    } else {
      assert b == {};
    }
  }

  /** Pigeonhole: as many distinct numbers as places means every place is taken. */
  lemma AllArrived(arrived: set<nat>, n: nat)
    requires arrived <= UpTo(n)
    ensures |arrived| == n + 1 <==> arrived == UpTo(n)
  {
    if |arrived| == n + 1 { SubsetSize(arrived, UpTo(n)); }
  }

  /** The ascending list of 0..n is the identity. */
  lemma {:induction false} AscendingUpTo(n: nat, k: nat)
    requires k <= n
    ensures |Ascending(UpTo(n))| == n + 1 && Ascending(UpTo(n))[k] == k
    decreases k
  {
    hide Ascending, UpTo;
    var a := Ascending(UpTo(n));
    assert a[k] in a;
    if k > 0 { AscendingUpTo(n, k - 1); }
    assert k in a;
    var j :| 0 <= j < |a| && a[j] == k;
    AtLeastIndex(a, k);
    AtLeastIndex(a, j);
  }

  lemma {:induction false} AtLeastIndex(a: seq<nat>, k: nat)
    requires StrictlyIncreasing(a) && k < |a|
    ensures a[k] >= k
    decreases k
  {
    if k > 0 { AtLeastIndex(a, k - 1); }
  }

  lemma {:induction false} DrainedFrom(
    p: seq<ProposalPart>, held: map<nat, Content>, keys: seq<nat>, k: nat)
    requires held == HeldOf(p, UpTo(|p|)) && k <= |p| + 1
    requires |keys| == |p| + 1 - k && forall j :: 0 <= j < |keys| ==> keys[j] == k + j
    ensures DataIn(held, keys) == if k <= |p| then p[k..] else []
    decreases |keys|
  {
    if keys != [] {
      DrainedFrom(p, held, keys[1..], k + 1);
    }
  }

  /** Draining all the messages of a stream gives back its parts in order. */
  lemma DrainedAll(p: seq<ProposalPart>)
    ensures Drained(HeldOf(p, UpTo(|p|))) == p
  {
    hide Ascending, UpTo;
    var held := HeldOf(p, UpTo(|p|));
    assert held.Keys == UpTo(|p|);
    var keys := Ascending(held.Keys);
    forall j | 0 <= j < |keys| ensures keys[j] == j {
      AscendingUpTo(|p|, j);
    }
    DrainedFrom(p, held, keys, 0);
  }

  lemma NotedSent(p: seq<ProposalPart>, arrived: set<nat>, i: nat)
    requires Opens(p) && i <= |p| && i !in arrived
    ensures Noted(Partial(p, arrived).(seen := arrived + {i}), SentAt(p, i))
            == Partial(p, arrived + {i})
  {
    assert HeldOf(p, arrived)[i := SentAt(p, i).content] == HeldOf(p, arrived + {i});
  }

  lemma PartialDone(p: seq<ProposalPart>, arrived: set<nat>)
    requires Opens(p) && arrived <= UpTo(|p|)
    ensures Done(Partial(p, arrived)) <==> arrived == UpTo(|p|)
  {
    hide UpTo;
    assert HeldOf(p, arrived).Keys == arrived;
    AllArrived(arrived, |p|);
  }

  /** A new message of the stream: the state follows, and the parts come out with the last missing
      message. */
  lemma InsertSent(p: seq<ProposalPart>, arrived: set<nat>, i: nat)
    requires Opens(p) && i <= |p| && i !in arrived && arrived + {i} <= UpTo(|p|)
    ensures Insert(Partial(p, arrived).(seen := arrived + {i}), SentAt(p, i))
            == (Expected(p, arrived + {i}),
                if arrived + {i} == UpTo(|p|) then Some(ProposalParts(p[0].init, p)) else None)
  {
    hide UpTo, Noted, Drained, Done;
    NotedSent(p, arrived, i);
    PartialDone(p, arrived + {i});
    DrainedAll(p);
  }

  lemma ReceiveSent(streams: Streams, key: Key, p: seq<ProposalPart>, arrived: set<nat>, i: nat)
    requires Opens(p) && i <= |p| && arrived <= UpTo(|p|)
    requires StreamAt(streams, key) == Expected(p, arrived)
    ensures var (after, out) := Receive(streams, key, SentAt(p, i));
            && StreamAt(after, key) == Expected(p, arrived + {i})
            && out == if arrived + {i} == UpTo(|p|) && arrived != UpTo(|p|)
                      then Some(ProposalParts(p[0].init, p)) else None
  {
    hide UpTo, Insert, Done, HeldOf;
    if i in arrived {
      assert arrived + {i} == arrived;
    } else {
      InsertSent(p, arrived, i);
      NeverDoneAfter(Partial(p, arrived).(seen := arrived + {i}), SentAt(p, i));
    }
  }

  lemma ArrivedNext(events: seq<Event>, key: Key, t: nat)
    requires t < |events|
    ensures Arrived(events[..t + 1], key)
            == Arrived(events[..t], key)
               + if events[t].0 == key then {events[t].1.sequence} else {}
  {
    var before, after := events[..t], events[..t + 1];
    forall j | 0 <= j < t ensures after[j] == before[j] { }
    assert after[t] == events[t];
    assert Arrived(after, key) >= Arrived(before, key) by {
      forall x | x in Arrived(before, key) ensures x in Arrived(after, key) {
        var j :| 0 <= j < |before| && before[j].0 == key && before[j].1.sequence == x;
        assert after[j].0 == key && after[j].1.sequence == x;
      }
    }
  }

  lemma NoneArrived(events: seq<Event>, key: Key, p: seq<ProposalPart>)
    requires Opens(p)
    ensures Arrived(events[..0], key) == {} && Expected(p, {}) == NEW_STREAM
    ensures Play(events[..0]) == map[]
  {
    assert 0 in UpTo(|p|);
    assert HeldOf(p, {}) == map[];
  }

  lemma {:induction false} SentState(events: seq<Event>, key: Key, p: seq<ProposalPart>, t: nat)
    requires Opens(p) && Carries(events, key, p) && t <= |events|
    ensures Arrived(events[..t], key) <= UpTo(|p|)
    ensures StreamAt(Play(events[..t]), key) == Expected(p, Arrived(events[..t], key))
    decreases t
  {
    hide UpTo, Receive, Expected, Arrived;
    if t == 0 {
      NoneArrived(events, key, p);
    } else {
      var event := events[t - 1];
      SentState(events, key, p, t - 1);
      PlayNext(events, t - 1);
      ArrivedNext(events, key, t - 1);
      if event.0 == key {
        ReceiveSent(Play(events[..t - 1]), key, p, Arrived(events[..t - 1], key),
                    event.1.sequence);
      } else {
        ReceiveFrame(Play(events[..t - 1]), event.0, event.1, key);
      }
    }
  }

  /** Message `t` is the last of the stream's messages to arrive for the first time. */
  ghost predicate Completes(events: seq<Event>, key: Key, n: nat, t: nat)
    requires t < |events|
  {
    && events[t].0 == key
    && Arrived(events[..t + 1], key) == UpTo(n) && Arrived(events[..t], key) != UpTo(n)
  }

  /** In every run in which a stream's messages arrive in any order, any number of times and among
      any other messages, an insertion under its key returns the stream's parts, in order, exactly
      when it is the last missing message. */
  lemma SentIsDelivered(events: seq<Event>, key: Key, p: seq<ProposalPart>, t: nat)
    requires Opens(p) && Carries(events, key, p) && t < |events| && events[t].0 == key
    ensures Output(events, t)
            == if Completes(events, key, |p|, t) then Some(ProposalParts(p[0].init, p)) else None
  {
    hide Receive, Expected, UpTo, Arrived;
    SentState(events, key, p, t);
    ArrivedNext(events, key, t);
    ReceiveSent(Play(events[..t]), key, p, Arrived(events[..t], key), events[t].1.sequence);
  }

  lemma SomethingArrived(events: seq<Event>, key: Key, t: nat)
    requires t <= |events| && Arrived(events[..t], key) != {}
    ensures t > 0
  {
  }

  lemma {:induction false} SomeCompletes(events: seq<Event>, key: Key, n: nat, t: nat)
    requires t <= |events| && Arrived(events[..t], key) == UpTo(n)
    ensures exists u :: 0 <= u < t && Completes(events, key, n, u)
    decreases t
  {
    hide Arrived, UpTo;
    assert 0 in UpTo(n);
    assert t > 0 by { SomethingArrived(events, key, t); }
    ArrivedNext(events, key, t - 1);
    if Arrived(events[..t - 1], key) == UpTo(n) {
      SomeCompletes(events, key, n, t - 1);
    } else {
      assert Completes(events, key, n, t - 1);
    }
  }

  /** Once every message has arrived, exactly one insertion has returned the stream's parts. */
  lemma DeliveredOnce(events: seq<Event>, key: Key, p: seq<ProposalPart>)
    requires Opens(p) && Carries(events, key, p)
    requires Arrived(events, key) == UpTo(|p|)
    ensures exists t :: && 0 <= t < |events| && events[t].0 == key
                        && Output(events, t) == Some(ProposalParts(p[0].init, p))
                        && forall u :: 0 <= u < |events| && u != t && events[u].0 == key ==>
                             Output(events, u).None?
  {
    hide Output, Arrived, UpTo;
    assert events[..|events|] == events;
    SomeCompletes(events, key, |p|, |events|);
    var t :| 0 <= t < |events| && Completes(events, key, |p|, t);
    SentIsDelivered(events, key, p, t);
    forall u | 0 <= u < |events| && u != t && events[u].0 == key
      ensures Output(events, u).None?
    {
      SentIsDelivered(events, key, p, u);
      if Output(events, u).Some? {
        NeverTwice(events, if u < t then u else t, if u < t then t else u);
      }
    }
  }
}

/** The stream map as the node keeps it: objects updated in place. */
module PartStreams {

  import opened Types
  import opened Ordering
  import opened Streaming

  /** The heap that holds exactly the given messages. */
  ghost function Contents(held: map<nat, Content>): multiset<Msg> {
    multiset(set s | s in held :: Msg(s, held[s]))
  }

  lemma {:induction false} ContentsSize(held: map<nat, Content>)
    ensures |Contents(held)| == |held|
    decreases |held|
  {
    if held == map[] {
      assert Contents(held) == multiset{};
    } else {
      var s :| s in held;
      var rest := held - {s};
      assert rest.Keys == held.Keys - {s};
      assert |rest| == |held| - 1;
      ContentsSize(rest);
      ContentsAdd(rest, Msg(s, held[s]));
      assert held == rest[s := held[s]];
    }
  }

  lemma ContentsAdd(held: map<nat, Content>, msg: Msg)
    requires msg.sequence !in held
    ensures Contents(held[msg.sequence := msg.content]) == Contents(held) + multiset{msg}
  {
    var after := held[msg.sequence := msg.content];
    var a := set s | s in held :: Msg(s, held[s]);
    var b := set s | s in after :: Msg(s, after[s]);
    assert b == a + {msg} by {
      assert msg == Msg(msg.sequence, after[msg.sequence]);
      forall m | m in a ensures m in b {
        assert m.sequence in after && m == Msg(m.sequence, after[m.sequence]);
      }
    }
    assert msg !in a;
  }

  lemma ContentsAt(held: map<nat, Content>, msg: Msg)
    ensures msg in Contents(held) <==> msg.sequence in held && held[msg.sequence] == msg.content
  {
    var a := set s | s in held :: Msg(s, held[s]);
    if msg.sequence in held && held[msg.sequence] == msg.content {
      assert msg == Msg(msg.sequence, held[msg.sequence]);
    }
    assert msg in Contents(held) <==> msg in a;
  }

  lemma {:induction false} DataSame(
    held: map<nat, Content>, other: map<nat, Content>, keys: seq<nat>)
    requires forall k :: k in keys ==> k in held && k in other && held[k] == other[k]
    ensures DataIn(held, keys) == DataIn(other, keys)
    decreases |keys|
  {
    if keys != [] {
      assert keys[0] in keys && forall k :: k in keys[1..] ==> k in keys;
      DataSame(held, other, keys[1..]);
    }
  }

  lemma LeastFirst(keys: set<nat>, least: nat)
    requires Least(least, keys)
    ensures Ascending(keys) == [least] + Ascending(keys - {least})
  {
  }

  lemma DrainFirst(held: map<nat, Content>, least: nat)
    requires Least(least, held.Keys)
    ensures Drained(held)
            == (if held[least].Data? then [held[least].part] else []) + Drained(held - {least})
  {
    hide Ascending;
    var rest := held - {least};
    LeastFirst(held.Keys, least);
    assert rest.Keys == held.Keys - {least};
    var keys := Ascending(rest.Keys);
    assert ([least] + keys)[1..] == keys;
    DataSame(held, rest, keys);
  }

  /** Popping the least message takes the first of the data in sequence order. */
  lemma PopLeast(held: map<nat, Content>, msg: Msg)
    requires msg in Contents(held)
    requires forall m :: m in Contents(held) ==> msg.sequence <= m.sequence
    ensures msg.sequence in held && held[msg.sequence] == msg.content
    ensures Contents(held - {msg.sequence}) == Contents(held) - multiset{msg}
    ensures Drained(held)
            == (if msg.content.Data? then [msg.content.part] else [])
               + Drained(held - {msg.sequence})
  {
    hide Contents, Drained;
    ContentsAt(held, msg);
    var least := msg.sequence;
    forall s | s in held ensures least <= s {
      ContentsAt(held, Msg(s, held[s]));
    }
    DrainFirst(held, least);
    ContentsAdd(held - {least}, msg);
    assert (held - {least})[least := msg.content] == held;
  }

  /** Taking one message out leaves the others. */
  lemma OneLess(buffer: multiset<Msg>, m: Msg)
    requires m in buffer
    ensures |buffer - multiset{m}| < |buffer|
    ensures forall x :: x in buffer <==> x == m || x in buffer - multiset{m}
  {
  }

  /** A message with the least sequence number: what the heap pops. */
  lemma {:induction false} LeastMessage(buffer: multiset<Msg>)
    requires buffer != multiset{}
    ensures exists m :: m in buffer && forall x :: x in buffer ==> m.sequence <= x.sequence
    decreases |buffer|
  {
    var m :| m in buffer;
    var rest := buffer - multiset{m};
    OneLess(buffer, m);
    if rest != multiset{} {
      LeastMessage(rest);
      var k :| k in rest && forall x :: x in rest ==> k.sequence <= x.sequence;
      var least := if k.sequence < m.sequence then k else m;
      assert least in buffer;
    }
  }

  class StreamState {

    var buffer: multiset<Msg>
    var initInfo: Option<ProposalInit>
    var seen: set<nat>
    var total: nat
    var finReceived: bool
    ghost var held: map<nat, Content>

    ghost predicate Valid()
      reads this
    {
      buffer == Contents(held) && held.Keys <= seen
    }

    ghost function View(): Stream
      reads this
    {
      Stream(held, initInfo, seen, total, finReceived)
    }

    constructor ()
      ensures Valid() && View() == NEW_STREAM
    {
      buffer, initInfo, seen, total, finReceived, held := multiset{}, None, {}, 0, false, map[];
    }

    method IsDone() returns (done: bool)
      requires Valid()
      ensures done <==> Done(View())
    {
      ContentsSize(held);
      done := initInfo.Some? && finReceived && |buffer| == total;
    }

    /** `MinHeap::drain`: pops by least sequence number and keeps the data. */
    method Drain() returns (parts: seq<ProposalPart>)
      requires Valid()
      modifies this
      ensures Valid() && parts == Drained(old(held))
      ensures View() == old(View()).(held := map[])
    {
      hide Drained, Contents;
      parts := [];
      while buffer != multiset{}
        invariant Valid()
        invariant parts + Drained(held) == Drained(old(held))
        invariant View() == old(View()).(held := held)
        decreases |buffer|
      {
        LeastMessage(buffer);
        var msg :| msg in buffer && forall x :: x in buffer ==> msg.sequence <= x.sequence;
        PopLeast(held, msg);
        buffer := buffer - multiset{msg};
        held := held - {msg.sequence};
        if msg.content.Data? {
          parts := parts + [msg.content.part];
        }
      }
      NothingHeld(held);
    }

    /** `StreamState::insert`. */
    method Insert(msg: Msg) returns (out: Option<ProposalParts>)
      requires Valid() && msg.sequence !in held && msg.sequence in seen
      modifies this
      ensures Valid()
      ensures (View(), out) == Streaming.Insert(old(View()), msg)
    {
      hide Drained, Contents;
      if msg.sequence == 0 {
        initInfo := InitOf(msg.content);
      }
      if msg.content.Fin? {
        finReceived := true;
        total := msg.sequence + 1;
      }
      ContentsAdd(held, msg);
      buffer := buffer + multiset{msg};
      held := held[msg.sequence := msg.content];
      assert View() == Noted(old(View()), msg);
      var done := IsDone();
      out := None;
      if done {
        var init := initInfo.value;
        initInfo := None;
        var parts := Drain();
        out := Some(ProposalParts(init, parts));
      }
    }

    /** Marks the number as seen, then inserts the message. */
    method InsertUnseen(msg: Msg) returns (out: Option<ProposalParts>)
      requires Valid() && msg.sequence !in seen
      modifies this
      ensures Valid()
      ensures (View(), out) == Streaming.Insert(
                old(View()).(seen := old(seen) + {msg.sequence}), msg)
    {
      hide Streaming.Insert, Contents;
      seen := seen + {msg.sequence};
      out := Insert(msg);
    }
  }

  lemma NothingHeld(held: map<nat, Content>)
    requires Contents(held) == multiset{}
    ensures held == map[] && Drained(held) == []
  {
    ContentsSize(held);
  }

  /** `Receive` in the steps of the code: entry, insertion, removal. */
  lemma ReceiveSteps(streams: Streams, key: Key, msg: Msg)
    ensures var s := StreamAt(streams, key);
            var entered := streams[key := s];
            var (after, out) := Streaming.Insert(s.(seen := s.seen + {msg.sequence}), msg);
            Receive(streams, key, msg)
            == if msg.sequence in s.seen then (entered, None)
               else if Done(after) then (entered[key := after] - {key}, out)
               else (entered[key := after], out)
  {
    hide Streaming.Insert, Done;
    var s := StreamAt(streams, key);
    var (after, out) := Streaming.Insert(s.(seen := s.seen + {msg.sequence}), msg);
    assert streams[key := s][key := after] == streams[key := after];
    assert streams[key := after] - {key} == streams - {key};
  }

  class PartStreamsMap {

    var streams: map<Key, StreamState>

    /** Every stream has a state object of its own. */
    ghost predicate Valid()
      reads this, streams.Values
    {
      && (forall k :: k in streams ==> streams[k].Valid())
      && (forall j, k :: j in streams && k in streams && j != k ==> streams[j] != streams[k])
    }

    ghost function View(): Streams
      reads this, streams.Values
    {
      map k | k in streams :: streams[k].View()
    }

    constructor ()
      ensures Valid() && View() == map[]
    {
      streams := map[];
    }

    /** `entry(..).or_default()`. */
    method Entry(key: Key) returns (state: StreamState)
      requires Valid()
      modifies this
      ensures Valid() && key in streams && state == streams[key]
      ensures forall k :: k in old(streams) ==> k in streams && streams[k] == old(streams)[k]
      ensures forall k :: k in streams && k !in old(streams) ==> fresh(streams[k])
      ensures View() == old(View())[key := StreamAt(old(View()), key)]
    {
      hide StreamState.Valid, StreamState.View;
      ghost var before := View();
      if key !in streams {
        var created := new StreamState();
        streams := streams[key := created];
        assert View() == before[key := NEW_STREAM];
      } else {
        assert before == before[key := before[key]];
      }
      state := streams[key];
    }

    /** `PartStreamsMap::insert`. */
    method Insert(key: Key, msg: Msg) returns (out: Option<ProposalParts>)
      requires Valid()
      modifies this, streams.Values
      ensures Valid()
      ensures forall k :: k in streams ==>
        (k in old(streams) && streams[k] == old(streams)[k]) || fresh(streams[k])
      ensures (View(), out) == Receive(old(View()), key, msg)
    {
      hide Streaming.Insert, Done, StreamState.Valid, Contents, Receive, StreamAt;
      ReceiveSteps(View(), key, msg);
      var state := Entry(key);
      ghost var before := View();
      assert before[key] == state.View();
      if msg.sequence in state.seen {
        out := None;
      } else {
        out := InsertInto(key, msg);
        var done := state.IsDone();
        if done {
          Remove(key);
        }
      }
    }

    method InsertInto(key: Key, msg: Msg) returns (out: Option<ProposalParts>)
      requires Valid() && key in streams && msg.sequence !in streams[key].seen
      modifies streams[key]
      ensures Valid()
      ensures var s := old(View())[key];
              var (after, parts) := Streaming.Insert(s.(seen := s.seen + {msg.sequence}), msg);
              View() == old(View())[key := after] && out == parts
    {
      hide Streaming.Insert, StreamState.Valid;
      ghost var before := View();
      assert before[key] == streams[key].View();
      out := streams[key].InsertUnseen(msg);
      assert View() == before[key := streams[key].View()];
    }

    method Remove(key: Key)
      requires Valid()
      modifies this
      ensures Valid() && streams == old(streams) - {key} && View() == old(View()) - {key}
    {
      hide StreamState.Valid, StreamState.View;
      streams := streams - {key};
    }
  }
}
