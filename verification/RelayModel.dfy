/**
 Relaying between a client and a server with back-pressure, as clientthread.cpp does it with the sockets of
 networksocket.cpp and the event map of iomultiplex/ioev.cpp: what each event makes of the two sockets.
 What the kernel answers to each call is part of the event.
 */
module RelayModel {
  import opened Sequences

  // ----- sending -----

  /** The kernel's answer to one send: it takes some of the bytes, at least one; it would block; or it fails. */
  datatype Answer = Takes(n: nat) | WouldBlock | Fails

  datatype Status = Done | Retry | Error

  datatype Sent = Sent(status: Status, taken: seq<bv8>, rest: seq<bv8>, answers: seq<Answer>)

  function Part(n: nat, len: nat): (k: nat)
    requires len > 0
    ensures 1 <= k <= len
  {
    if n < 1 then 1 else if n > len then len else n
  }

  lemma {:induction false} InFront(data: seq<bv8>, k: nat, taken: seq<bv8>, rest: seq<bv8>)
    requires k <= |data| && taken + rest == data[k..]
    ensures (data[..k] + taken) + rest == data
  {
    assert (data[..k] + taken) + rest == data[..k] + (taken + rest);
  }

  /** Sends until everything is taken or the kernel stops taking. Without an answer the kernel would block. */
  function Send(data: seq<bv8>, answers: seq<Answer>): (r: Sent)
    ensures r.taken + r.rest == data && (r.status == Done <==> r.rest == [])
    decreases |data|
  {
    if data == [] then Sent(Done, [], [], answers)
    else if answers == [] then Sent(Retry, [], data, [])
    else
      match answers[0]
      case Takes(n) =>
        var k := Part(n, |data|);
        var r := Send(data[k..], answers[1..]);
        InFront(data, k, r.taken, r.rest);
        r.(taken := data[..k] + r.taken)
      case WouldBlock => Sent(Retry, [], data, answers[1..])
      case Fails => Sent(Error, [], data, answers[1..])
  }

  // ----- the two sides -----

  /** What a socket is registered for. A later registration replaces an earlier one. */
  datatype Event = NoEvent | ReadEvent | WriteEvent

  /**
   A socket: bytes read from it and not yet passed on, bytes still to be sent to it, the kernel's answers to
   come, and all bytes it ever took and gave.
   */
  datatype Side = Side(recv: seq<bv8>, send: seq<bv8>, answers: seq<Answer>, accepted: seq<bv8>, read: seq<bv8>,
      event: Event)

  datatype Pair = Pair(ok: bool, des: Side, src: Side)

  /** What was read from `src` goes to `des`, from which nothing is left over from before. */
  function WriteRecv(des: Side, src: Side): Pair {
    var r := Send(src.recv, des.answers);
    var des' := des.(accepted := des.accepted + r.taken, answers := r.answers);
    match r.status
    case Done => Pair(true, des'.(event := ReadEvent), src.(recv := []))
    case Retry => Pair(true, des'.(send := r.rest, event := WriteEvent), src.(recv := [], event := NoEvent))
    case Error => Pair(false, des', src.(recv := r.rest))
  }

  /**
   First what is left over from before, then what was read. What cannot be sent is kept, and the source is not read
   meanwhile.
   */
  function Write(des: Side, src: Side): Pair {
    if des.send == [] && src.recv == [] then Pair(true, des, src)
    else if des.send == [] then WriteRecv(des, src)
    else
      var r := Send(des.send, des.answers);
      var des' := des.(accepted := des.accepted + r.taken, answers := r.answers, send := r.rest);
      match r.status
      case Done => WriteRecv(des', src.(event := ReadEvent))
      case Retry => Pair(true, des'.(send := r.rest + src.recv, event := WriteEvent),
          src.(recv := [], event := NoEvent))
      case Error => Pair(false, des', src)
  }

  datatype State = State(open: bool, front: Side, back: Side)

  function ToBack(s: State): State {
    var p := Write(s.back, s.front);
    State(p.ok, p.src, p.des)
  }

  function ToFront(s: State): State {
    var p := Write(s.front, s.back);
    State(p.ok, p.des, p.src)
  }

  /** After a read from one side, everything that waits in either direction is written. */
  function SendToBack(s: State): State {
    var s1 := if s.front.recv != [] then ToBack(s) else s;
    var s2 := if s1.open && s1.front.send != [] then ToFront(s1) else s1;
    if s2.open && s2.back.send != [] then ToBack(s2) else s2
  }

  function SendToFront(s: State): State {
    var s1 := if s.back.recv != [] then ToFront(s) else s;
    var s2 := if s1.open && s1.back.send != [] then ToBack(s1) else s1;
    if s2.open && s2.front.send != [] then ToFront(s2) else s2
  }

  // ----- events -----

  /** The kernel's answer to a read. */
  datatype Arrival = Chunk(bytes: seq<bv8>) | Again | Gone | ReadFails

  datatype Input =
    | FrontReady(arrival: Arrival, toFront: seq<Answer>, toBack: seq<Answer>)
    | BackReady(arrival: Arrival, toFront: seq<Answer>, toBack: seq<Answer>)

  function Received(side: Side, arrival: Arrival): Side {
    if arrival.Chunk? then side.(recv := side.recv + arrival.bytes, read := side.read + arrival.bytes) else side
  }

  function Answered(s: State, input: Input): State {
    s.(front := s.front.(answers := input.toFront), back := s.back.(answers := input.toBack))
  }

  /** A client that is gone still has what it sent before relayed. */
  function FrontStep(s: State, arrival: Arrival): State {
    match s.front.event
    case NoEvent => s
    case WriteEvent => ToFront(s)
    case ReadEvent =>
      var s' := s.(front := Received(s.front, arrival));
      if arrival.ReadFails? || (arrival.Gone? && s.front.recv == []) then s.(open := false)
      else if s'.front.recv == [] then s'
      else SendToBack(s')
  }

  function BackStep(s: State, arrival: Arrival): State {
    match s.back.event
    case NoEvent => s
    case WriteEvent => ToBack(s)
    case ReadEvent =>
      var s' := s.(back := Received(s.back, arrival));
      if arrival.ReadFails? || arrival.Gone? then s.(open := false)
      else if s'.back.recv == [] then s'
      else SendToFront(s')
  }

  function Next(s: State, input: Input): State {
    if !s.open then s
    else if input.FrontReady? then FrontStep(Answered(s, input), input.arrival)
    else BackStep(Answered(s, input), input.arrival)
  }

  function Run(s: State, inputs: seq<Input>): State
    decreases |inputs|
  {
    if inputs == [] then s else Next(Run(s, inputs[..|inputs| - 1]), inputs[|inputs| - 1])
  }

  function Fresh(): Side {
    Side([], [], [], [], [], ReadEvent)
  }

  function Start(): State {
    State(true, Fresh(), Fresh())
  }

  // ----- first in, first out, and nothing lost -----

  /**
   What `des` took, what is kept for it, and what was read and not yet passed on, in this order, is what `src` gave.
   */
  predicate Flows(src: Side, des: Side) {
    des.accepted + des.send + src.recv == src.read
  }

  /** When the connection is closed, some of it may be missing at the end. */
  predicate Broken(src: Side, des: Side) {
    des.accepted <= src.read
  }

  /** Nothing waits; both sides are read. */
  predicate Idle(s: State) {
    s.front.event == ReadEvent == s.back.event && s.front.send == [] == s.back.send
  }

  /** seq<bv8> wait for `des`, which is watched for room; nothing is read from either side. */
  predicate Blocked(des: Side, src: Side) {
    des.event == WriteEvent && des.send != [] && src.event == NoEvent && src.send == []
  }

  predicate Balanced(s: State) {
    s.front.recv == [] == s.back.recv && (Idle(s) || Blocked(s.back, s.front) || Blocked(s.front, s.back))
  }

  predicate Inv(s: State) {
    if s.open then Flows(s.front, s.back) && Flows(s.back, s.front) && Balanced(s)
    else Broken(s.front, s.back) && Broken(s.back, s.front)
  }

  /** Writing passes bytes on in order, and leaves the other direction alone. */
  lemma {:induction false} WriteRecvFlows(des: Side, src: Side)
    requires Flows(src, des) && des.send == []
    ensures var p := WriteRecv(des, src);
      && (if p.ok then Flows(p.src, p.des) else Broken(p.src, p.des))
      && p.des.read == des.read && p.des.recv == des.recv && p.src.send == src.send && p.src.accepted == src.accepted
      && p.src.read == src.read
  {
    var r := Send(src.recv, des.answers);
    Assoc(des.accepted, r.taken, r.rest);
    Assoc(des.accepted, [], src.recv);
    Assoc(des.accepted + r.taken, r.rest, []);
    hide Send;
  }

  lemma {:induction false} WriteFlows(des: Side, src: Side)
    requires Flows(src, des)
    ensures var p := Write(des, src);
      && (if p.ok then Flows(p.src, p.des) else Broken(p.src, p.des))
      && p.des.read == des.read && p.des.recv == des.recv && p.src.send == src.send && p.src.accepted == src.accepted
      && p.src.read == src.read
  {
    hide WriteRecv, Send;
    if des.send == [] {
      WriteRecvFlows(des, src);
    } else {
      var r := Send(des.send, des.answers);
      Assoc(des.accepted, r.taken, r.rest);
      Assoc(des.accepted + r.taken, r.rest, src.recv);
      Assoc(des.accepted, des.send, src.recv);
      Assoc(des.accepted + r.taken, r.rest + src.recv, []);
      if r.status == Done {
        WriteRecvFlows(des.(accepted := des.accepted + r.taken, answers := r.answers, send := r.rest),
            src.(event := ReadEvent));
      }
    }
  }

  // ----- back-pressure -----

  predicate IdlePair(p: Side, q: Side) {
    p.event == ReadEvent == q.event && p.send == [] == q.send
  }

  /** Nothing is kept and something was read, or bytes wait for `des`. */
  predicate Ready(des: Side, src: Side) {
    des.recv == [] && (IdlePair(des, src) || (src.recv == [] && Blocked(des, src)))
  }

  lemma {:induction false} WriteBalances(des: Side, src: Side)
    requires Ready(des, src)
    ensures var p := Write(des, src); p.ok ==> p.src.recv == [] && Ready(p.des, p.src)
  {
    hide Send;
    Assoc([], src.recv, []);
  }

  /** Both sides are read with nothing waiting, or bytes wait for one side and the other is not read. */
  lemma {:induction false} WriteKeeps(s: State, toBack: bool)
    requires s.open && Flows(s.front, s.back) && Flows(s.back, s.front)
    requires if toBack then Ready(s.back, s.front) else Ready(s.front, s.back)
    ensures var t := if toBack then ToBack(s) else ToFront(s);
      && Inv(t)
      && (t.open ==>
           t.front.recv == [] == t.back.recv && if toBack then Ready(t.back, t.front) else Ready(t.front, t.back))
  {
    hide Write, Send;
    var des, src := if toBack then s.back else s.front, if toBack then s.front else s.back;
    WriteBalances(des, src);
    WriteFlows(des, src);
    BrokenToo(des, src);
  }

  lemma {:induction false} BrokenToo(des: Side, src: Side)
    requires Flows(des, src)
    ensures Broken(des, src)
  {
    Assoc(src.accepted, src.send, des.recv);
    Assoc(src.accepted, src.send + des.recv, []);
  }

  lemma {:induction false} SendKeeps(s: State, toBack: bool)
    requires s.open && Flows(s.front, s.back) && Flows(s.back, s.front) && Idle(s)
    requires if toBack then s.front.recv != [] && s.back.recv == [] else s.back.recv != [] && s.front.recv == []
    ensures Inv(if toBack then SendToBack(s) else SendToFront(s))
  {
    hide Flows, Write, Broken;
    WriteKeeps(s, toBack);
    var t := if toBack then ToBack(s) else ToFront(s);
    if t.open {
      WriteKeeps(t, toBack);
    }
    hide ToBack, ToFront;
  }

  lemma {:induction false} ReadFlows(src: Side, des: Side, arrival: Arrival)
    requires Flows(src, des)
    ensures Flows(Received(src, arrival), des)
  {
    if arrival.Chunk? {
      Assoc(des.accepted + des.send, src.recv, arrival.bytes);
    }
  }

  lemma {:induction false} FrontKeeps(s: State, arrival: Arrival)
    requires s.open && Inv(s)
    ensures Inv(FrontStep(s, arrival))
  {
    hide Write, SendToBack;
    match s.front.event
    case NoEvent =>
    case WriteEvent =>
      WriteKeeps(s, false);
    case ReadEvent =>
      ReadFlows(s.front, s.back, arrival);
      BrokenToo(s.front, s.back);
      BrokenToo(s.back, s.front);
      var s' := s.(front := Received(s.front, arrival));
      assert Received(s.front, arrival).send == s.front.send && Received(s.front, arrival).accepted == s.front.accepted;
      if s'.front.recv != [] && !arrival.ReadFails? && !(arrival.Gone? && s.front.recv == []) {
        SendKeeps(s', true);
      }
  }

  lemma {:induction false} BackKeeps(s: State, arrival: Arrival)
    requires s.open && Inv(s)
    ensures Inv(BackStep(s, arrival))
  {
    hide Write, SendToFront;
    match s.back.event
    case NoEvent =>
    case WriteEvent =>
      WriteKeeps(s, true);
    case ReadEvent =>
      ReadFlows(s.back, s.front, arrival);
      BrokenToo(s.front, s.back);
      BrokenToo(s.back, s.front);
      var s' := s.(back := Received(s.back, arrival));
      assert Received(s.back, arrival).send == s.back.send && Received(s.back, arrival).accepted == s.back.accepted;
      if s'.back.recv != [] && !arrival.ReadFails? && !arrival.Gone? {
        SendKeeps(s', false);
      }
  }

  lemma {:induction false} NextKeeps(s: State, input: Input)
    requires Inv(s)
    ensures Inv(Next(s, input))
  {
    if s.open {
      var s' := Answered(s, input);
      assert Inv(s');
      if input.FrontReady? {
        FrontKeeps(s', input.arrival);
      } else {
        BackKeeps(s', input.arrival);
      }
    }
    hide FrontStep, BackStep, Inv;
  }

  /** Over every run of events, and whatever the kernel answers. */
  lemma {:induction false} RunKeeps(inputs: seq<Input>)
    ensures Inv(Run(Start(), inputs))
    decreases |inputs|
  {
    if inputs == [] {
      assert Inv(Start());
    } else {
      RunKeeps(inputs[..|inputs| - 1]);
      NextKeeps(Run(Start(), inputs[..|inputs| - 1]), inputs[|inputs| - 1]);
    }
  }

  /** While both sides are read, each has taken exactly what the other gave. */
  lemma {:induction false} NothingWaits(inputs: seq<Input>)
    ensures var s := Run(Start(), inputs);
      s.open && s.front.event == ReadEvent == s.back.event ==>
          s.back.accepted == s.front.read && s.front.accepted == s.back.read
  {
    RunKeeps(inputs);
    var s := Run(Start(), inputs);
    hide Run;
    Assoc(s.back.accepted, [], []);
    Assoc(s.front.accepted, [], []);
  }

  lemma {:induction false} TakesAll(data: seq<bv8>, rest: seq<Answer>)
    ensures Send(data, [Takes(|data|)] + rest).status == Done
  {
  }

  /** Once the kernel takes what waits, both sides are read again, and nothing waits. */
  lemma {:induction false} Resumes(inputs: seq<Input>)
    ensures var s := Run(Start(), inputs);
      var room := [Takes(|s.front.send| + |s.back.send|)];
      var input := if s.front.event == WriteEvent then FrontReady(Again, room, room) else BackReady(Again, room, room);
      s.open && (s.front.event == WriteEvent || s.back.event == WriteEvent) ==>
        var t := Next(s, input);
        t.open && Idle(t) && t.back.accepted == s.front.read && t.front.accepted == s.back.read
  {
    RunKeeps(inputs);
    var s := Run(Start(), inputs);
    hide Run;
    if s.open && s.front.event == WriteEvent {
      Unblocks(s.front, s.back);
      Assoc(s.back.accepted, [], []);
    } else if s.open && s.back.event == WriteEvent {
      Unblocks(s.back, s.front);
      Assoc(s.front.accepted, [], []);
    }
  }

  lemma {:induction false} Unblocks(des: Side, src: Side)
    requires Blocked(des, src) && des.recv == [] == src.recv && Flows(src, des)
    ensures var room := [Takes(|des.send| + |src.send|)];
      var p := Write(des.(answers := room), src.(answers := room));
      && p.ok && IdlePair(p.des, p.src) && p.des.accepted == src.read && p.src.accepted == src.accepted
           && p.src.read == src.read
      && p.des.read == des.read
  {
    TakesAll(des.send, []);
    assert [Takes(|des.send|)] + [] == [Takes(|des.send|)];
    var room := [Takes(|des.send| + |src.send|)];
    WriteFlows(des.(answers := room), src.(answers := room));
    WriteBalances(des.(answers := room), src.(answers := room));
    var p := Write(des.(answers := room), src.(answers := room));
    Assoc(p.des.accepted, [], []);
  }
}
