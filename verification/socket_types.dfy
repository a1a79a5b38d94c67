/** The declarations of cppSocket.h: the five socket kinds, the classifiers on
    them, the constants of the class and the 16-bit failed-send counter. */
module SocketTypes {

  datatype SocketType =
    | SocketTCPServer
    | SocketTCPClient
    | SocketUDPServer
    | SocketUDPClient
    | SocketICMP

  /** The constructor's default kind. */
  const DefaultSocketType: SocketType := SocketTCPClient

  /** The POSIX error return of the socket calls, and the invalid descriptor. */
  const SOCKET_ERROR: int := -1
  const INVALID_SOCKET: int := -1

  /** Size of every receive buffer. */
  const MaxMessageSize: nat := 4096

  /** Backlog passed to listen() and the select() timeout of the listener. */
  const MaxConnections: nat := 5
  const TcpListenTimeoutSeconds: nat := 5

  predicate IsICMP(t: SocketType) {
    t == SocketICMP
  }

  predicate IsTCP(t: SocketType) {
    t == SocketTCPServer || t == SocketTCPClient
  }

  predicate IsServer(t: SocketType) {
    t == SocketTCPServer || t == SocketUDPServer
  }

  /** The three classifiers together tell every kind apart: TCP/UDP crossed
      with server/client, and ICMP as neither TCP nor server. */
  lemma ClassifiersIdentifyKind(t: SocketType)
    ensures t == SocketTCPServer <==> IsTCP(t) && IsServer(t)
    ensures t == SocketTCPClient <==> IsTCP(t) && !IsServer(t)
    ensures t == SocketUDPServer <==> !IsTCP(t) && IsServer(t)
    ensures t == SocketUDPClient <==> !IsTCP(t) && !IsServer(t) && !IsICMP(t)
    ensures IsICMP(t) ==> !IsTCP(t) && !IsServer(t)
  {
  }

  /** The `unsigned short` that counts failed sends per client. */
  const CounterModulus: nat := 0x1_0000
  type Counter = x: int | 0 <= x < 0x1_0000

  /** `count++` on an unsigned short: one more, wrapping from 65535 to 0. */
  function Increment(count: Counter): (r: Counter)
    ensures count < CounterModulus - 1 ==> r == count + 1
    ensures count == CounterModulus - 1 ==> r == 0
  {
    (count + 1) % CounterModulus
  }
}
