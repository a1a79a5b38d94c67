/** The bookkeeping of CPPSocket (cppSocket.cpp): which clients a TCP server
    holds, the latest message of each, the queue of clients with unread data,
    the per-client count of failed sends, and the pure address and type
    helpers. Every operating-system call (socket, bind, listen, connect,
    accept, select, send, recv) is replaced by its result, passed in as a
    parameter; the listener thread's steps (Select, Accept, HandleClient) are
    separate methods, one call per step the thread takes. */
module CppSocket {
  import opened Text
  import opened SocketTypes

  /** One byte of a message (unsigned char on POSIX). */
  type DataType = bv8

  /** A client's latest message: its size and the buffer recv() wrote to. */
  datatype BufferInfo = BufferInfo(messageSize: nat, buffer: seq<DataType>)

  /** What std::map::operator[] inserts for an id it does not hold. */
  const EmptyBufferInfo: BufferInfo := BufferInfo(0, [])

  /** A vector of n value-initialised bytes. */
  function Zeros(n: nat): (r: seq<DataType>)
    ensures |r| == n
    ensures forall i :: 0 <= i < n ==> r[i] == 0
  {
    seq(n, _ => 0)
  }

  /** The buffer after recv() wrote `data` to its front. Where the buffer is
      shorter than the data (an entry operator[] created with an empty vector)
      the model keeps the data alone. */
  function ReceiveInto(buffer: seq<DataType>, data: seq<DataType>): (r: seq<DataType>)
    ensures |data| <= |r| && r[..|data|] == data
    ensures |data| <= |buffer| ==> |r| == |buffer| && r[|data|..] == buffer[|data|..]
  {
    if |data| <= |buffer| then data + buffer[|data|..] else data
  }

  // ---------------------------------------------------------------------
  // Failed-send counters

  /** A write is full when send() returned no error and the whole size. */
  predicate FullWrite(bytesSent: int, bufferSize: int) {
    bytesSent != SOCKET_ERROR && bytesSent == bufferSize
  }

  /** A client's counter after one send: reset by a full write, otherwise one more. */
  function NextFailedCount(count: Counter, full: bool): (r: Counter)
    ensures full ==> r == 0
    ensures !full && count < CounterModulus - 1 ==> r == count + 1
    ensures !full && count == CounterModulus - 1 ==> r == 0
  {
    if full then 0 else Increment(count)
  }

  /** The counter of an id, 0 for an id never recorded. */
  function CountOf(counts: map<int, Counter>, id: int): Counter {
    if id in counts then counts[id] else 0
  }

  /** The counters after a broadcast that attempted one send to each of
      `targets`: each target's counter advanced once by its own outcome,
      every other counter as it was. */
  predicate IsBroadcastOf(after: map<int, Counter>, before: map<int, Counter>, targets: set<int>,
                          bufferSize: int, sendResult: int -> int) {
    && after.Keys == before.Keys + targets
    && (forall k :: k in targets ==>
          after[k] == NextFailedCount(CountOf(before, k), FullWrite(sendResult(k), bufferSize)))
    && (forall k :: k in before && k !in targets ==> after[k] == before[k])
  }

  /** The members of `clients` other than `listening` below `n`: those a
      descriptor loop has visited once its index reaches n. */
  function VisitedBelow(clients: set<int>, listening: int, n: int): (r: set<int>)
    ensures r <= clients - {listening}
  {
    set c | c in clients && c != listening && 0 <= c < n
  }

  lemma VisitedStep(clients: set<int>, listening: int, n: int)
    requires 0 <= n
    ensures n in clients && n != listening ==> VisitedBelow(clients, listening, n + 1) == VisitedBelow(clients, listening, n) + {n}
    ensures !(n in clients && n != listening) ==> VisitedBelow(clients, listening, n + 1) == VisitedBelow(clients, listening, n)
    ensures n !in VisitedBelow(clients, listening, n)
  {
  }

  /** Every send to the targets wrote the whole buffer. */
  predicate AllFull(targets: set<int>, bufferSize: int, sendResult: int -> int) {
    forall c :: c in targets ==> FullWrite(sendResult(c), bufferSize)
  }

  lemma AllFullStep(targets: set<int>, s: int, bufferSize: int, sendResult: int -> int)
    ensures AllFull(targets + {s}, bufferSize, sendResult) <==>
      AllFull(targets, bufferSize, sendResult) && FullWrite(sendResult(s), bufferSize)
  {
  }

  /** The counters once the broadcast loop has visited descriptors 0 to n - 1. */
  function BroadcastCounts(counts: map<int, Counter>, clients: set<int>, listening: int, n: int,
                           bufferSize: int, sendResult: int -> int): map<int, Counter>
    decreases n
  {
    if n <= 0 then counts
    else
      var prev := BroadcastCounts(counts, clients, listening, n - 1, bufferSize, sendResult);
      if n - 1 in clients && n - 1 != listening
      then prev[n - 1 := NextFailedCount(CountOf(prev, n - 1), FullWrite(sendResult(n - 1), bufferSize))]
      else prev
  }

  /** Visiting the descriptors in order sends once to each visited client. */
  lemma {:induction false} BroadcastCountsMeaning(counts: map<int, Counter>, clients: set<int>, listening: int, n: int,
                                                  bufferSize: int, sendResult: int -> int)
    requires n >= 0
    ensures IsBroadcastOf(BroadcastCounts(counts, clients, listening, n, bufferSize, sendResult),
                          counts, VisitedBelow(clients, listening, n), bufferSize, sendResult)
    decreases n
  {
    if n > 0 {
      BroadcastCountsMeaning(counts, clients, listening, n - 1, bufferSize, sendResult);
      VisitedStep(clients, listening, n - 1);
    }
  }

  /** The counter of one client after a run of sends (true = full write). */
  function CountAfterSends(count: Counter, outcomes: seq<bool>): Counter {
    if outcomes == [] then count
    else NextFailedCount(CountAfterSends(count, outcomes[..|outcomes| - 1]), outcomes[|outcomes| - 1])
  }

  /** Number of failed sends since the last full write. */
  function TrailingFailures(outcomes: seq<bool>): nat {
    if outcomes == [] || outcomes[|outcomes| - 1] then 0
    else TrailingFailures(outcomes[..|outcomes| - 1]) + 1
  }

  /** Starting from an id never recorded, the counter is the number of
      consecutive failed sends since the last success, modulo 2^16. */
  lemma {:induction false} CountIsConsecutiveFailures(outcomes: seq<bool>)
    ensures CountAfterSends(0, outcomes) == TrailingFailures(outcomes) % CounterModulus
  {
    if outcomes != [] {
      var init := outcomes[..|outcomes| - 1];
      CountIsConsecutiveFailures(init);
      if !outcomes[|outcomes| - 1] {
        var t := TrailingFailures(init);
        assert (t % CounterModulus + 1) % CounterModulus == (t + 1) % CounterModulus;
      }
    }
  }

  // ---------------------------------------------------------------------
  // Address selection and type names

  /** The destination up to (not including) its last '.', or all of it. */
  function ComparePrefix(destination: string): (r: string)
    ensures r <= destination
    ensures '.' !in destination ==> r == destination
    ensures '.' in destination ==>
      |r| < |destination| && destination[|r|] == '.' && '.' !in destination[|r| + 1..]
  {
    match FindLast(destination, '.')
    case None => destination
    case Some(i) => destination[..i]
  }

  /** Index of the first address at or after `from` that starts with `prefix`. */
  function FirstWithPrefix(addresses: seq<string>, prefix: string, from: nat): (r: Option<nat>)
    decreases |addresses| - from
    ensures r.Some? ==> from <= r.value < |addresses| && prefix <= addresses[r.value]
    ensures r.Some? ==> forall j :: from <= j < r.value ==> !(prefix <= addresses[j])
    ensures r.None? ==> forall j :: from <= j < |addresses| ==> !(prefix <= addresses[j])
  {
    if from >= |addresses| then None
    else if prefix <= addresses[from] then Some(from)
    else FirstWithPrefix(addresses, prefix, from + 1)
  }

  /** The local address to bind to for `destination`; "" means the wildcard.
      The list of local interface addresses is a parameter. */
  function GetBestLocalIPAddress(destination: string, localAddresses: seq<string>): (r: string)
    ensures destination == [] ==> r == []
    ensures destination != [] && (forall j :: 0 <= j < |localAddresses| ==> !(ComparePrefix(destination) <= localAddresses[j]))
      ==> r == []
    ensures destination != [] && (exists j :: 0 <= j < |localAddresses| && ComparePrefix(destination) <= localAddresses[j])
      ==> exists i :: 0 <= i < |localAddresses| && r == localAddresses[i]
            && ComparePrefix(destination) <= localAddresses[i]
            && forall j :: 0 <= j < i ==> !(ComparePrefix(destination) <= localAddresses[j])
  {
    if destination == [] then []
    else
      match FirstWithPrefix(localAddresses, ComparePrefix(destination), 0)
      case None => []
      case Some(i) => localAddresses[i]
  }

  /** The name used in log lines for each kind (with its spelling "IMCP"). */
  function GetTypeString(t: SocketType): string {
    match t
    case SocketTCPServer => "TCP Server"
    case SocketTCPClient => "TCP Client"
    case SocketUDPServer => "UDP Server"
    case SocketUDPClient => "UDP Client"
    case SocketICMP => "IMCP"
  }

  lemma TypeStringsDistinct(a: SocketType, b: SocketType)
    ensures GetTypeString(a) == GetTypeString(b) <==> a == b
  {
  }

  // ---------------------------------------------------------------------
  // Create: which socket is opened, and what is done with it

  datatype Protocol = RawICMP | StreamTCP | DatagramUDP

  /** The protocol socket() is asked for. */
  function ProtocolFor(t: SocketType): (p: Protocol)
    ensures p == RawICMP <==> IsICMP(t)
    ensures p == StreamTCP <==> IsTCP(t)
    ensures p == DatagramUDP <==> !IsICMP(t) && !IsTCP(t)
  {
    if IsICMP(t) then RawICMP else if IsTCP(t) then StreamTCP else DatagramUDP
  }

  /** A port and a dotted host; "" is the wildcard address. */
  datatype Address = Address(port: nat, host: string)

  datatype CreateStep = OpenOnly | ConnectTo(address: Address) | BindTo(address: Address)

  /** What Create does after socket() succeeded: nothing more for ICMP, connect
      for a TCP client, bind (to the best local address) for the others. */
  function CreateStepFor(t: SocketType, port: nat, target: string, localAddresses: seq<string>): (step: CreateStep)
    ensures step.OpenOnly? <==> IsICMP(t)
    ensures step.ConnectTo? <==> IsTCP(t) && !IsServer(t)
    ensures step.BindTo? <==> IsServer(t) || t == SocketUDPClient
    ensures step.ConnectTo? ==> step.address == Address(port, target)
    ensures step.BindTo? ==> step.address == Address(port, GetBestLocalIPAddress(target, localAddresses))
  {
    if t == SocketICMP then OpenOnly
    else if t == SocketTCPClient then ConnectTo(Address(port, target))
    else BindTo(Address(port, GetBestLocalIPAddress(target, localAddresses)))
  }

  // ---------------------------------------------------------------------
  // The socket object

  class Socket {
    const socketType: SocketType
    var sock: int
    var continueListening: bool
    var clients: set<int>
    var readSocks: set<int>
    var maxSock: int
    var failedSendCount: map<int, Counter>
    var clientBuffers: map<int, BufferInfo>
    var clientRcvQueue: seq<int>
    var rcvBuffer: seq<DataType>

    /** Every client id lies in the range the descriptor loops scan, and no
        stored message is larger than a receive can deliver. */
    ghost predicate Valid()
      reads this
    {
      && 0 <= maxSock
      && (forall c :: c in clients ==> 0 <= c <= maxSock)
      && (forall id :: id in clientBuffers ==> clientBuffers[id].messageSize <= MaxMessageSize)
    }

    /** The clients a broadcast or a count visits: every member but the listening socket. */
    ghost function Recipients(): set<int>
      reads this
    {
      clients - {sock}
    }


    /** What Receive(SocketID&) reports: SOCKET_ERROR on an empty queue,
        otherwise the stored size of the front client (0 if it has no entry). */
    ghost function FrontSize(): int
      reads this
    {
      if clientRcvQueue == [] then SOCKET_ERROR
      else if clientRcvQueue[0] in clientBuffers then clientBuffers[clientRcvQueue[0]].messageSize
      else 0
    }

    /** The buffer of the front client (empty if it has no entry). */
    ghost function FrontMessage(): seq<DataType>
      reads this
      requires clientRcvQueue != []
    {
      if clientRcvQueue[0] in clientBuffers then clientBuffers[clientRcvQueue[0]].buffer else []
    }

    /** The buffers once operator[] has looked up the front client. */
    ghost function BuffersWithFront(): map<int, BufferInfo>
      reads this
    {
      if clientRcvQueue == [] || clientRcvQueue[0] in clientBuffers then clientBuffers
      else clientBuffers[clientRcvQueue[0] := EmptyBufferInfo]
    }

    /** The buffer recv() writes to for a client: its own, or a fresh one. */
    ghost function ReadTarget(id: int): seq<DataType>
      reads this
    {
      if id in clientBuffers then clientBuffers[id].buffer else Zeros(MaxMessageSize)
    }

    constructor (t: SocketType := DefaultSocketType)
      ensures socketType == t && sock == 0 && maxSock == 0 && !continueListening
      ensures clients == {} && readSocks == {}
      ensures failedSendCount == map[] && clientBuffers == map[] && clientRcvQueue == []
      ensures rcvBuffer == Zeros(MaxMessageSize)
      ensures Valid()
    {
      socketType := t;
      sock := 0;
      maxSock := 0;
      continueListening := false;
      clients := {};
      readSocks := {};
      failedSendCount := map[];
      clientBuffers := map[];
      clientRcvQueue := [];
      rcvBuffer := Zeros(MaxMessageSize);
    }

    /** Create: socket() returned `socketResult`; connect(), bind() and
        listen() report success as given. */
    method Create(port: nat, target: string, localAddresses: seq<string>,
                  socketResult: int, connectOk: bool, bindOk: bool, listenOk: bool)
      returns (ok: bool)
      modifies this`sock, this`continueListening
      ensures sock == socketResult
      ensures ok == (socketResult != INVALID_SOCKET &&
        match CreateStepFor(socketType, port, target, localAddresses)
        case OpenOnly => true
        case ConnectTo(_) => connectOk
        case BindTo(_) => bindOk && (socketType == SocketTCPServer ==> listenOk))
      ensures continueListening ==
        if socketResult != INVALID_SOCKET && socketType == SocketTCPServer && bindOk then true
        else old(continueListening)
    {
      sock := socketResult;
      if sock == INVALID_SOCKET {
        return false;
      }
      match CreateStepFor(socketType, port, target, localAddresses)
      case OpenOnly =>
        ok := true;
      case ConnectTo(_) =>
        ok := connectOk;
      case BindTo(address) =>
        ok := Bind(address, bindOk, listenOk);
    }

    /** Bind: a TCP server first enables address reuse (its result is not
        checked) and, once bound, goes on to Listen. */
    method Bind(address: Address, bindOk: bool, listenOk: bool) returns (ok: bool)
      modifies this`continueListening
      ensures ok == (bindOk && (socketType == SocketTCPServer ==> listenOk))
      ensures continueListening ==
        if bindOk && socketType == SocketTCPServer then true else old(continueListening)
    {
      if !bindOk {
        return false;
      }
      if socketType == SocketTCPServer {
        ok := Listen(listenOk);
        return;
      }
      ok := true;
    }

    /** Listen raises the listening flag before it knows whether listen()
        succeeded, so the flag stays up after a failed listen. */
    method Listen(listenOk: bool) returns (ok: bool)
      modifies this`continueListening
      ensures continueListening
      ensures ok == listenOk
    {
      continueListening := true;
      ok := listenOk;
    }

    /** The listener thread's start: the client set holds the listening socket alone. */
    method ListenThreadStart()
      requires Valid() && sock >= 0
      modifies this`clients, this`maxSock
      ensures Valid()
      ensures clients == {sock} && maxSock == sock
    {
      clients := {sock};
      maxSock := sock;
    }

    /** One select() of the listener: readSocks becomes the ready clients. */
    method Select(selectOk: bool, ready: set<int>)
      modifies this`readSocks
      ensures readSocks == if selectOk then clients * ready else clients
    {
      readSocks := clients;
      if selectOk {
        readSocks := readSocks * ready;
      }
    }

    /** The listener's accept branch: accept() returned `newSock`. */
    method Accept(newSock: int)
      requires Valid() && newSock >= SOCKET_ERROR
      modifies this`clients, this`maxSock
      ensures Valid()
      ensures newSock == SOCKET_ERROR ==> clients == old(clients) && maxSock == old(maxSock)
      ensures newSock != SOCKET_ERROR ==> clients == old(clients) + {newSock}
      ensures newSock != SOCKET_ERROR ==> maxSock == if newSock > old(maxSock) then newSock else old(maxSock)
    {
      if newSock == SOCKET_ERROR {
        return;
      }
      clients := clients + {newSock};
      if newSock > maxSock {
        maxSock := newSock;
      }
    }

    /** A ready client: recv() returned `received` and wrote `payload`. A
        positive read overwrites the client's message and queues its id once
        more; any other result drops the client. */
    method HandleClient(id: int, received: int, payload: seq<DataType>)
      requires Valid() && socketType == SocketTCPServer
      requires received <= MaxMessageSize
      requires received > 0 ==> |payload| == received
      modifies this`clients, this`clientBuffers, this`failedSendCount, this`clientRcvQueue
      ensures Valid()
      ensures received <= 0 ==>
        && clients == old(clients) - {id}
        && clientBuffers == old(clientBuffers) - {id}
        && failedSendCount == old(failedSendCount) - {id}
        && clientRcvQueue == old(clientRcvQueue)
      ensures received > 0 ==>
        && clients == old(clients)
        && clientBuffers == old(clientBuffers)[id := BufferInfo(received, ReceiveInto(old(ReadTarget(id)), payload))]
        && failedSendCount == old(failedSendCount)
        && clientRcvQueue == old(clientRcvQueue) + [id]
    {
      // DoReceive: a client without an entry gets a fresh buffer first
      if id !in clientBuffers {
        clientBuffers := clientBuffers[id := BufferInfo(0, Zeros(MaxMessageSize))];
      }
      var msgSize := received;
      if msgSize > 0 {
        clientBuffers := clientBuffers[id := clientBuffers[id].(buffer := ReceiveInto(clientBuffers[id].buffer, payload))];
      }
      // the int result is stored in an unsigned int
      clientBuffers := clientBuffers[id := clientBuffers[id].(messageSize := msgSize % 0x1_0000_0000)];

      if msgSize <= 0 {
        DropClient(id);
      } else {
        clientRcvQueue := clientRcvQueue + [id];
      }
    }

    method ClientIsConnected(id: int) returns (connected: bool)
      requires socketType == SocketTCPServer
      ensures connected <==> id in clients
    {
      connected := id in clients;
    }

    /** Forget a client: it leaves the client set and both maps (erasing an
        absent id changes nothing); the receive queue is left as it is. */
    method DropClient(id: int)
      requires socketType == SocketTCPServer
      modifies this`clients, this`clientBuffers, this`failedSendCount
      ensures clients == old(clients) - {id}
      ensures clientBuffers == old(clientBuffers) - {id}
      ensures failedSendCount == old(failedSendCount) - {id}
      ensures clientRcvQueue == old(clientRcvQueue)
      ensures old(Valid()) ==> Valid()
    {
      clients := clients - {id};
      clientBuffers := clientBuffers - {id};
      failedSendCount := failedSendCount - {id};
    }

    method GetFailedSendCount(id: int) returns (count: Counter)
      requires socketType == SocketTCPServer
      ensures id in failedSendCount ==> count == failedSendCount[id]
      ensures id !in failedSendCount ==> count == 0
    {
      if id !in failedSendCount {
        return 0;
      }
      count := failedSendCount[id];
    }

    /** Receive(SocketID&): the size of the front client's message, without
        popping; operator[] adds an empty entry for a front id with none. */
    method Receive(sockIdIn: int) returns (n: int, sockId: int)
      requires Valid() && socketType == SocketTCPServer
      modifies this`clientBuffers
      ensures Valid()
      ensures n == old(FrontSize())
      ensures old(clientRcvQueue) == [] ==> n == SOCKET_ERROR && sockId == sockIdIn
      ensures old(clientRcvQueue) != [] ==> sockId == old(clientRcvQueue)[0] && n >= 0
      ensures clientBuffers == old(BuffersWithFront())
      ensures clientRcvQueue == old(clientRcvQueue)
    {
      if clientRcvQueue == [] {
        return SOCKET_ERROR, sockIdIn;
      }
      sockId := clientRcvQueue[0];
      if sockId !in clientBuffers {
        clientBuffers := clientBuffers[sockId := EmptyBufferInfo];
      }
      n := clientBuffers[sockId].messageSize;
    }

    /** Receive(sockaddr*) on a non-server socket: recv() returned `received`
        into the shared buffer. A TCP server hands over to Receive(SocketID&). */
    method ReceiveFromPeer(received: int, payload: seq<DataType>) returns (n: int)
      requires Valid()
      requires received <= MaxMessageSize
      requires received > 0 ==> |payload| == received
      modifies this`rcvBuffer, this`clientBuffers
      ensures Valid()
      ensures socketType == SocketTCPServer ==>
        n == old(FrontSize()) && clientBuffers == old(BuffersWithFront()) && rcvBuffer == old(rcvBuffer)
      ensures socketType != SocketTCPServer ==>
        && n == received
        && clientBuffers == old(clientBuffers)
        && rcvBuffer == if received > 0 then ReceiveInto(old(rcvBuffer), payload) else old(rcvBuffer)
    {
      if socketType == SocketTCPServer {
        var dummy: int;
        n, dummy := Receive(0);
        return;
      }
      if received > 0 {
        rcvBuffer := ReceiveInto(rcvBuffer, payload);
      }
      n := received;
    }

    /** The latest message: a TCP server pops exactly one id from the queue
        and hands back that client's buffer; other kinds hand back the shared
        buffer. Where the C++ would take front() of an empty vector the model
        hands back the empty sequence. */
    method GetLastMessage() returns (data: seq<DataType>)
      requires Valid()
      requires socketType == SocketTCPServer ==> clientRcvQueue != []
      modifies this`clientBuffers, this`clientRcvQueue
      ensures Valid()
      ensures socketType == SocketTCPServer ==>
        && data == old(FrontMessage())
        && clientBuffers == old(BuffersWithFront())
        && clientRcvQueue == old(clientRcvQueue)[1..]
      ensures socketType != SocketTCPServer ==>
        data == rcvBuffer && clientBuffers == old(clientBuffers) && clientRcvQueue == old(clientRcvQueue)
    {
      if socketType == SocketTCPServer {
        var front := clientRcvQueue[0];
        if front !in clientBuffers {
          clientBuffers := clientBuffers[front := EmptyBufferInfo];
        }
        data := clientBuffers[front].buffer;
        clientRcvQueue := clientRcvQueue[1..];
      } else {
        data := rcvBuffer;
      }
    }

    /** The result WaitForClientData returns once its wait is over. */
    method WaitForClientData() returns (available: bool)
      ensures available <==> clientRcvQueue != []
    {
      available := clientRcvQueue != [];
    }

    /** Unicast send: send() to `client` returned `bytesSent`. An id that is
        neither a client nor the listening socket is refused untouched. */
    method TCPSendTo(client: int, bufferSize: int, bytesSent: int) returns (ok: bool)
      requires socketType == SocketTCPServer
      modifies this`failedSendCount
      ensures client !in clients && client != sock ==> !ok && failedSendCount == old(failedSendCount)
      ensures client in clients || client == sock ==>
        && ok == FullWrite(bytesSent, bufferSize)
        && failedSendCount == old(failedSendCount)[client := NextFailedCount(CountOf(old(failedSendCount), client), ok)]
    {
      if client !in clients && client != sock {
        return false;
      }
      ok := CountSend(client, bytesSent, bufferSize);
    }

    /** The outcome of one send() to a client: a failed or short write counts
        one more failure, a full write resets the counter. */
    method CountSend(client: int, bytesSent: int, bufferSize: int) returns (full: bool)
      modifies this`failedSendCount
      ensures full == FullWrite(bytesSent, bufferSize)
      ensures failedSendCount == old(failedSendCount)[client := NextFailedCount(CountOf(old(failedSendCount), client), full)]
    {
      if bytesSent == SOCKET_ERROR {
        failedSendCount := failedSendCount[client := Increment(CountOf(failedSendCount, client))];
        return false;
      } else if bytesSent != bufferSize {
        failedSendCount := failedSendCount[client := Increment(CountOf(failedSendCount, client))];
        return false;
      }
      failedSendCount := failedSendCount[client := 0];
      full := true;
    }

    /** The TCPSend overload without a client: a server broadcasts, a client
        writes to its one connection (send() results come from `sendResult`). */
    method TCPSend(bufferSize: int, sendResult: int -> int) returns (ok: bool)
      requires Valid() && IsTCP(socketType)
      modifies this`failedSendCount
      ensures IsServer(socketType) ==>
        && IsBroadcastOf(failedSendCount, old(failedSendCount), Recipients(), bufferSize, sendResult)
        && (ok <==> Recipients() != {} && AllFull(Recipients(), bufferSize, sendResult))
      ensures !IsServer(socketType) ==>
        ok == FullWrite(sendResult(sock), bufferSize) && failedSendCount == old(failedSendCount)
    {
      if IsServer(socketType) {
        ok := TCPServerSend(bufferSize, sendResult);
        return;
      }
      var bytesSent := sendResult(sock);
      if bytesSent == SOCKET_ERROR {
        return false;
      }
      if bytesSent != bufferSize {
        return false;
      }
      ok := true;
    }

    /** Broadcast: every client but the listening socket gets one send() and
        its own counter update. True only if some client was attempted and
        every attempted write was full. */
    method TCPServerSend(bufferSize: int, sendResult: int -> int) returns (ok: bool)
      requires Valid()
      modifies this`failedSendCount
      ensures IsBroadcastOf(failedSendCount, old(failedSendCount), Recipients(), bufferSize, sendResult)
      ensures ok <==> Recipients() != {} && AllFull(Recipients(), bufferSize, sendResult)
    {
      var success, calledSend := true, false;
      var listening, last := sock, maxSock;
      ghost var visiting, start := clients, failedSendCount;
      var s := 0;
      while s <= last
        invariant 0 <= s <= last + 1
        invariant failedSendCount == BroadcastCounts(start, visiting, listening, s, bufferSize, sendResult)
        invariant calledSend <==> VisitedBelow(visiting, listening, s) != {}
        invariant success <==> AllFull(VisitedBelow(visiting, listening, s), bufferSize, sendResult)
      {
        ghost var visited := VisitedBelow(visiting, listening, s);
        VisitedStep(visiting, listening, s);
        if s in clients && s != listening {
          AllFullStep(visited, s, bufferSize, sendResult);
          var bytesSent := sendResult(s);
          calledSend := true;
          var full := CountSend(s, bytesSent, bufferSize);
          if !full {
            success := false;
          }
        }
        s := s + 1;
      }
      assert VisitedBelow(visiting, listening, s) == Recipients();
      BroadcastCountsMeaning(start, visiting, listening, s, bufferSize, sendResult);
      ok := success && calledSend;
    }

    /** Number of connected clients, the listening socket not included. */
    method GetClientCount() returns (count: nat)
      requires Valid() && socketType == SocketTCPServer
      ensures count == |Recipients()|
    {
      count := 0;
      var s := 0;
      while s <= maxSock
        invariant 0 <= s <= maxSock + 1
        invariant count == |VisitedBelow(clients, sock, s)|
      {
        VisitedStep(clients, sock, s);
        if s in clients && s != sock {
          count := count + 1;
        }
        s := s + 1;
      }
      assert VisitedBelow(clients, sock, s) == Recipients();
    }

    /** Destroy: listening stops and every piece of client state is emptied;
        the descriptor value and maxSock are kept. */
    method Destroy()
      modifies this`continueListening, this`clients, this`readSocks,
               this`failedSendCount, this`clientBuffers, this`clientRcvQueue
      ensures !continueListening
      ensures clients == {} && readSocks == {}
      ensures failedSendCount == map[] && clientBuffers == map[] && clientRcvQueue == []
      ensures sock == old(sock) && maxSock == old(maxSock)
      ensures old(Valid()) ==> Valid()
    {
      continueListening := false;
      clients := {};
      readSocks := {};
      failedSendCount := map[];
      clientBuffers := map[];
      while clientRcvQueue != []
        invariant !continueListening && clients == {} && readSocks == {}
        invariant failedSendCount == map[] && clientBuffers == map[]
        decreases |clientRcvQueue|
      {
        clientRcvQueue := clientRcvQueue[1..];
      }
    }
  }

  // ---------------------------------------------------------------------
  // Whole exchanges through a fresh server

  /** A client's message, once read by the listener, is what the consumer
      receives: its id, its size and its bytes at the front of the buffer. */
  method DeliveredMessage(listenSock: int, client: int, size: int, payload: seq<DataType>)
    returns (n: int, id: int, data: seq<DataType>)
    requires 0 <= listenSock && 0 <= client && client != listenSock
    requires 0 < size <= MaxMessageSize && |payload| == size
    ensures id == client && n == size
    ensures |data| == MaxMessageSize && data[..size] == payload
  {
    var server := new Socket(SocketTCPServer);
    var created := server.Create(0, "", [], listenSock, false, true, true);
    server.ListenThreadStart();
    server.Accept(client);
    server.HandleClient(client, size, payload);
    n, id := server.Receive(-1);
    data := server.GetLastMessage();
  }

  /** A client that disconnects while its id is queued stays queued: the
      consumer is then told its id with size 0 and an empty message. */
  method DroppedWhileQueued(listenSock: int, client: int, size: int, payload: seq<DataType>)
    returns (n: int, id: int, data: seq<DataType>, connected: bool)
    requires 0 <= listenSock && 0 <= client && client != listenSock
    requires 0 < size <= MaxMessageSize && |payload| == size
    ensures id == client && n == 0 && data == [] && !connected
  {
    var server := new Socket(SocketTCPServer);
    var created := server.Create(0, "", [], listenSock, false, true, true);
    server.ListenThreadStart();
    server.Accept(client);
    server.HandleClient(client, size, payload);
    server.HandleClient(client, 0, []);
    connected := server.ClientIsConnected(client);
    n, id := server.Receive(-1);
    data := server.GetLastMessage();
  }

  /** A broadcast with no client connected fails, whatever send() would do. */
  method BroadcastWithoutClients(listenSock: int, bufferSize: int, sendResult: int -> int)
    returns (ok: bool, count: nat)
    requires 0 <= listenSock
    ensures !ok && count == 0
  {
    var server := new Socket(SocketTCPServer);
    var created := server.Create(0, "", [], listenSock, false, true, true);
    server.ListenThreadStart();
    ok := server.TCPSend(bufferSize, sendResult);
    count := server.GetClientCount();
  }

  /** A socket made without naming a kind is a TCP client. */
  method DefaultSocket() returns (name: string, server: bool, tcp: bool)
    ensures name == "TCP Client" && !server && tcp
  {
    var socket := new Socket();
    name := GetTypeString(socket.socketType);
    server := IsServer(socket.socketType);
    tcp := IsTCP(socket.socketType);
  }
}
