/**
 The buffers and sockets that clientthread.cpp relays with, and its event handlers, updated in place and
 proved against module RelayModel. Packets are passed on as they are.
 */
module Relay {
  import opened RelayModel
  import opened Sequences

  class StringBuf {
    var bytes: seq<bv8>
    var offset: nat

    predicate Valid()
      reads this
    {
      offset <= |bytes|
    }

    /** What is left behind the offset. */
    function Remaining(): seq<bv8>
      requires Valid()
      reads this
    {
      bytes[offset..]
    }

    constructor ()
      ensures Valid() && bytes == [] && offset == 0
    {
      bytes, offset := [], 0;
    }

    method Clear()
      modifies this
      ensures Valid() && bytes == [] && offset == 0
    {
      bytes, offset := [], 0;
    }

    /** Removes the bytes from `from` to before `to`. The offset stays, and may be left behind the end. */
    method Erase(from: nat, to: nat)
      requires from <= |bytes|
      modifies this`bytes
      ensures bytes == if to <= from then old(bytes)
            else if to > |old(bytes)| then old(bytes)[..from] else old(bytes)[..from] + old(bytes)[to..]
    {
      var end := if to > |bytes| then |bytes| else to;
      if end <= from {
        assert to > |bytes| ==> bytes[..from] == bytes;
        return;
      }
      bytes := bytes[..from] + bytes[end..];
    }

    method Append(data: seq<bv8>)
      modifies this`bytes
      ensures bytes == old(bytes) + data
    {
      bytes := bytes + data;
    }
  }

  class NetworkSocket {
    const fd: nat
    const recvData: StringBuf
    const sendData: StringBuf
    var answers: seq<Answer>
    ghost var accepted: seq<bv8>
    ghost var read: seq<bv8>

    constructor (fd: nat)
      ensures fresh(recvData) && fresh(sendData) && recvData != sendData && this.fd == fd
      ensures recvData.Valid() && sendData.Valid() && recvData.bytes == [] == sendData.bytes
      ensures recvData.offset == 0 && answers == [] && accepted == [] && read == []
    {
      this.fd := fd;
      recvData := new StringBuf();
      sendData := new StringBuf();
      answers, accepted, read := [], [], [];
    }

    /** Hands bytes to the kernel; its answer is the next one, and it would block if there is none. */
    method SendSome(data: seq<bv8>) returns (len: int)
      requires data != []
      modifies this`answers, this`accepted
      ensures var r := SendOnce(data, old(answers));
        && len == r.len && answers == r.answers && accepted == old(accepted) + data[..if len < 0 then 0 else len]
    {
      if answers == [] {
        return -1;
      }
      var answer := answers[0];
      answers := answers[1..];
      match answer {
        case Takes(n) =>
          len := Part(n, |data|);
          accepted := accepted + data[..len];
        case WouldBlock => len := -1;
        case Fails => len := -2;
      }
    }

    /** 0 if all was sent, 1 to try again later, -1 on errors. */
    method WriteNosslData(buf: StringBuf) returns (ret: int)
      requires buf.Valid()
      modifies buf`offset, this`answers, this`accepted
      ensures buf.Valid()
      ensures var r := Send(old(buf.Remaining()), old(answers));
        && buf.Remaining() == r.rest && answers == r.answers && accepted == old(accepted) + r.taken
             && ret == Code(r.status)
    {
      hide Send, SendOnce;
      ghost var all := Send(buf.Remaining(), answers);
      ghost var sent: seq<bv8> := [];
      while buf.offset < |buf.bytes|
        invariant buf.Valid() && accepted == old(accepted) + sent
        invariant var r := Send(buf.Remaining(), answers); all == r.(taken := sent + r.taken)
        decreases |buf.bytes| - buf.offset
      {
        ghost var data := buf.Remaining();
        SendUnfolds(data, answers);
        var len := SendSome(buf.bytes[buf.offset..]);
        if len == -1 {
          return 1;
        } else if len < 0 {
          return -1;
        }
        Behind(buf.bytes, buf.offset, len);
        Assoc(old(accepted), sent, data[..len]);
        Assoc(sent, data[..len], Send(data[len..], answers).taken);
        buf.offset := buf.offset + len;
        sent := sent + data[..len];
      }
      SendNothing(answers);
      Assoc(sent, [], []);
      return 0;
    }

    /** Keeps what is left to send, and adds what is left of `buf`. */
    method SaveData(buf: StringBuf)
      requires sendData.Valid() && buf.Valid() && buf != sendData
      modifies sendData
      ensures sendData.Valid() && sendData.offset == 0
      ensures sendData.Remaining() == old(sendData.Remaining()) + buf.Remaining()
    {
      sendData.Erase(0, sendData.offset);
      sendData.offset := 0;
      sendData.Append(buf.bytes[buf.offset..]);
    }

    /** 0 if something was read, 1 to try again later, 2 if the other end is gone, -1 on errors. */
    method ReadNosslData(arrival: Arrival) returns (ret: int)
      requires recvData.Valid()
      modifies recvData`bytes, this`read
      ensures recvData.Valid()
      ensures recvData.bytes == old(recvData.bytes) + (if arrival.Chunk? then arrival.bytes else [])
      ensures read == old(read) + (if arrival.Chunk? then arrival.bytes else [])
      ensures ret == match arrival case Chunk(_) => 0 case Again => 1 case Gone => 2 case ReadFails => -1
    {
      match arrival {
        case Chunk(bytes) =>
          recvData.Append(bytes);
          read := read + bytes;
          return 0;
        case Again => return 1;
        case Gone => return 2;
        case ReadFails => return -1;
      }
    }
  }

  datatype One = One(len: int, answers: seq<Answer>)

  function SendOnce(data: seq<bv8>, answers: seq<Answer>): One
    requires data != []
  {
    if answers == [] then One(-1, [])
    else match answers[0]
      case Takes(n) => One(Part(n, |data|), answers[1..])
      case WouldBlock => One(-1, answers[1..])
      case Fails => One(-2, answers[1..])
  }

  lemma {:induction false} Behind(bytes: seq<bv8>, offset: nat, len: nat)
    requires offset + len <= |bytes|
    ensures bytes[offset..][len..] == bytes[offset + len..]
  {
  }

  lemma {:induction false} SendNothing(answers: seq<Answer>)
    ensures Send([], answers) == Sent(Done, [], [], answers)
  {
  }

  function Code(status: Status): int {
    match status case Done => 0 case Retry => 1 case Error => -1
  }

  lemma {:induction false} SendUnfolds(data: seq<bv8>, answers: seq<Answer>)
    requires data != []
    ensures var one := SendOnce(data, answers);
      && one.len >= -2 && one.len != 0
      && (one.len == -1 ==> Send(data, answers) == Sent(Retry, [], data, one.answers))
      && (one.len == -2 ==> Send(data, answers) == Sent(Error, [], data, one.answers))
      && (one.len >= 0 ==>
           one.len <= |data| && var r := Send(data[one.len..], one.answers);
               Send(data, answers) == r.(taken := data[..one.len] + r.taken))
  {
  }

  /** A client and the server it is connected to, with the events they are registered for. */
  class ClientThread {
    const front: NetworkSocket
    const back: NetworkSocket
    var events: map<nat, Event>
    var open: bool

    ghost function Repr(): set<object> {
      {this, front, back, front.recvData, front.sendData, back.recvData, back.sendData}
    }

    ghost predicate Shape()
      reads Repr()
    {
      && Apart(front, back)
      && front.recvData.Valid() && front.sendData.Valid() && back.recvData.Valid() && back.sendData.Valid()
    }

    /** Between events, what was read has been passed on, or kept for the other side. */
    ghost predicate Valid()
      reads Repr()
    {
      Shape() && (open ==> front.recvData.offset == 0 == back.recvData.offset)
    }

    ghost function View(): State
      requires Valid()
      reads Repr()
    {
      State(open, SideOf(front, events), SideOf(back, events))
    }

    constructor (frontFd: nat, backFd: nat)
      requires frontFd != backFd
      ensures Valid() && fresh(Repr()) && View() == Start()
    {
      front := new NetworkSocket(frontFd);
      back := new NetworkSocket(backFd);
      events := map[frontFd := ReadEvent, backFd := ReadEvent];
      open := true;
    }

    // ----- events -----

    /** Replaces whatever the socket was registered for. */
    method AddIoEvent(fd: nat, event: Event)
      modifies this`events
      ensures events == old(events)[fd := event]
    {
      events := events[fd := event];
    }

    method DelIoEvent(fd: nat)
      modifies this`events
      ensures events == old(events) - {fd}
    {
      events := events - {fd};
    }

    // ----- writing -----

    ghost predicate Ends(des: NetworkSocket, src: NetworkSocket) {
      (des == front && src == back) || (des == back && src == front)
    }

    ghost function Sides(des: NetworkSocket, src: NetworkSocket): Pair
      requires Shape() && Ends(des, src)
      reads Repr()
    {
      Pair(open, SideOf(des, events), SideOf(src, events))
    }

    /** Keeps what could not be sent, waits for room, and stops reading the source. */
    method SaveDataToSendData(des: NetworkSocket, src: NetworkSocket)
      requires Shape() && Ends(des, src)
      modifies this`events, des.sendData, src.recvData
      ensures Shape() && src.recvData.offset == 0
      ensures var p := old(Sides(des, src));
        Sides(des, src) == p.(des := p.des.(send := p.des.send + p.src.recv, event := WriteEvent),
            src := p.src.(recv := [], event := NoEvent))
    {
      des.SaveData(src.recvData);
      AddIoEvent(des.fd, WriteEvent);
      DelIoEvent(src.fd);
      src.recvData.Clear();
    }

    /** Sends what was read from `src`. */
    method WriteRecvData(des: NetworkSocket, src: NetworkSocket)
      requires Valid() && Ends(des, src) && open && des.sendData.Remaining() == []
      modifies this`open, this`events, des`answers, des`accepted, des.sendData, src.recvData
      ensures Valid() && Sides(des, src) == WriteRecv(old(Sides(des, src)).des, old(Sides(des, src)).src)
    {
      hide Send;
      ghost var p := Sides(des, src);
      ghost var r := Send(p.src.recv, p.des.answers);
      ghost var des' := p.des.(accepted := p.des.accepted + r.taken, answers := r.answers);
      var ret := des.WriteNosslData(src.recvData);
      assert Sides(des, src) == Pair(true, des', p.src.(recv := r.rest));
      if ret == 1 {
        SaveDataToSendData(des, src);
      } else if ret != 0 {
        open := false;
      } else {
        AddIoEvent(des.fd, ReadEvent);
        src.recvData.Clear();
      }
    }

    /** Sends what was kept. Once that is done, the source is read again. */
    method WriteKept(des: NetworkSocket, src: NetworkSocket) returns (ret: int)
      requires Valid() && Ends(des, src) && open
      modifies Repr()
      ensures Valid() && ret == Code(Send(old(des.sendData.Remaining()), old(des.answers)).status)
      ensures var p, r := old(Sides(des, src)), Send(old(des.sendData.Remaining()), old(des.answers));
        var des' := p.des.(accepted := p.des.accepted + r.taken, answers := r.answers, send := r.rest);
        Sides(des, src) ==
        match r.status
        case Done => Pair(true, des', p.src.(event := ReadEvent))
        case Retry => Pair(true, des'.(send := r.rest + p.src.recv, event := WriteEvent),
            p.src.(recv := [], event := NoEvent))
        case Error => Pair(false, des', p.src)
    {
      hide Send;
      ret := des.WriteNosslData(des.sendData);
      if ret == 1 {
        SaveDataToSendData(des, src);
      } else if ret != 0 {
        open := false;
      } else {
        des.sendData.Clear();
        AddIoEvent(src.fd, ReadEvent);
      }
    }

    method WriteTo(des: NetworkSocket, src: NetworkSocket)
      requires Valid() && Ends(des, src) && open
      modifies Repr()
      ensures Valid() && Sides(des, src) == Write(old(Sides(des, src)).des, old(Sides(des, src)).src)
    {
      hide Send, WriteRecv;
      if |des.sendData.Remaining()| == 0 && |src.recvData.Remaining()| == 0 {
        src.recvData.Clear();
        des.sendData.Clear();
        return;
      }
      if |des.sendData.Remaining()| > 0 {
        var ret := WriteKept(des, src);
        if ret != 0 {
          return;
        }
      }
      WriteRecvData(des, src);
    }

    method WriteData(isFront: bool)
      requires Valid() && open
      modifies Repr()
      ensures Valid() && View() == if isFront then ToFront(old(View())) else ToBack(old(View()))
    {
      hide Write;
      if isFront {
        WriteTo(front, back);
      } else {
        WriteTo(back, front);
      }
    }

    /** After a read, everything that waits in either direction is written. */
    method SendData(sendToClient: bool)
      requires Valid() && open
      modifies Repr()
      ensures Valid() && View() == if sendToClient then SendToFront(old(View())) else SendToBack(old(View()))
    {
      hide ToFront, ToBack;
      if sendToClient {
        if |back.recvData.Remaining()| > 0 {
          WriteData(true);
          if !open {
            return;
          }
        }
        if |back.sendData.Remaining()| > 0 {
          WriteData(false);
          if !open {
            return;
          }
        }
        if |front.sendData.Remaining()| > 0 {
          WriteData(true);
        }
      } else {
        if |front.recvData.Remaining()| > 0 {
          WriteData(false);
          if !open {
            return;
          }
        }
        if |front.sendData.Remaining()| > 0 {
          WriteData(true);
          if !open {
            return;
          }
        }
        if |back.sendData.Remaining()| > 0 {
          WriteData(false);
        }
      }
    }

    // ----- reading -----

    method HandleReadFrontData(arrival: Arrival)
      requires Valid() && open && View().front.event == ReadEvent
      modifies Repr()
      ensures Valid() && View() == FrontStep(old(View()), arrival)
    {
      hide SendToBack, Send;
      ghost var s := View();
      var ret := front.ReadNosslData(arrival);
      Assoc(s.front.recv, [], []);
      Assoc(s.front.read, [], []);
      if ret < 0 || (ret == 2 && |front.recvData.Remaining()| == 0) {
        open := false;
        return;
      }
      if |front.recvData.bytes| == 0 {
        return;
      }
      SendData(false);
    }

    method HandleReadBackendData(arrival: Arrival)
      requires Valid() && open && View().back.event == ReadEvent
      modifies Repr()
      ensures Valid() && View() == BackStep(old(View()), arrival)
    {
      hide SendToFront, Send;
      ghost var s := View();
      var ret := back.ReadNosslData(arrival);
      Assoc(s.back.recv, [], []);
      Assoc(s.back.read, [], []);
      if ret < 0 || ret == 2 {
        open := false;
        return;
      }
      if |back.recvData.bytes| == 0 {
        return;
      }
      SendData(true);
    }

    method RwFrontData(arrival: Arrival)
      requires Valid() && open
      modifies Repr()
      ensures Valid() && View() == FrontStep(old(View()), arrival)
    {
      match EventOf(events, front.fd) {
        case ReadEvent => HandleReadFrontData(arrival);
        case WriteEvent => WriteData(true);
        case NoEvent =>
      }
    }

    method RwBackendData(arrival: Arrival)
      requires Valid() && open
      modifies Repr()
      ensures Valid() && View() == BackStep(old(View()), arrival)
    {
      match EventOf(events, back.fd) {
        case ReadEvent => HandleReadBackendData(arrival);
        case WriteEvent => WriteData(false);
        case NoEvent =>
      }
    }

    /** One event, with the kernel's answers to the calls made for it. Every event keeps the invariant of the relay. */
    method Handle(input: Input)
      requires Valid()
      modifies Repr()
      ensures Valid() && View() == Next(old(View()), input)
      ensures old(Inv(View())) ==> Inv(View())
    {
      if Inv(View()) {
        NextKeeps(View(), input);
      }
      if open {
        hide FrontStep, BackStep, Inv;
        front.answers := input.toFront;
        back.answers := input.toBack;
        if input.FrontReady? {
          RwFrontData(input.arrival);
        } else {
          RwBackendData(input.arrival);
        }
      }
    }
  }

  ghost predicate Apart(p: NetworkSocket, q: NetworkSocket) {
    && p != q && p.fd != q.fd
    && p.recvData != p.sendData && q.recvData != q.sendData
    && p.recvData != q.recvData && p.recvData != q.sendData && p.sendData != q.recvData && p.sendData != q.sendData
  }

  function EventOf(events: map<nat, Event>, fd: nat): Event {
    if fd in events then events[fd] else NoEvent
  }

  ghost function SideOf(s: NetworkSocket, events: map<nat, Event>): Side
    requires s.recvData.Valid() && s.sendData.Valid()
    reads s, s.recvData, s.sendData
  {
    Side(s.recvData.Remaining(), s.sendData.Remaining(), s.answers, s.accepted, s.read, EventOf(events, s.fd))
  }
}
