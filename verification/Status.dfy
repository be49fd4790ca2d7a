/** TcpConnection::Status (evk/tcp_conn.h). */
module ConnectionStatus {
  datatype Status = Connecting | Connected | Disconnecting | Disconnected

  /** What HandleClose asserts. */
  predicate Open(s: Status) { s.Connected? || s.Disconnecting? }
}
