/**
 * The request text and return-code contract of `http_send_request` (main/http.c). The text is a
 * request line (RFC 1945, section 5.1) followed by a Host header (RFC 7230, section 5.4) and the
 * empty line that ends the header section. The DNS lookup, socket, connect, write and close are
 * the network's; their outcomes are a parameter.
 */
module Http {
  import opened Text

  /** TXBUFF_SIZE */
  const TxBuffSize := 100

  /** HTTP_ERROR, and the value returned on success */
  const HttpError := -1
  const HttpSent := 1

  /** Characters of the request text other than path, host and port. */
  const RequestOverhead := 28

  function RequestText(url: string, port: string, path: string): (t: string)
    ensures |t| == RequestOverhead + |path| + |url| + |port|
  {
    "POST /" + path + " HTTP/1.0\r\nHost: " + url + ":" + port + "\r\n\r\n"
  }

  /** What the network calls of one send attempt report. */
  datatype NetOutcome = NetOutcome(dnsOk: bool, socketOk: bool, connectOk: bool, writeOk: bool)

  /** The return code, whether the network was used at all, and the bytes handed to `write`. */
  datatype SendResult = SendResult(rc: int, usedNetwork: bool, written: string)

  /**
   * http_send_request: formats the request into the 100-byte buffer and gives up with HTTP_ERROR
   * before any network call when the text does not fit (with its NUL); otherwise runs DNS lookup,
   * socket, connect and write, each failure returning HTTP_ERROR, and returns 1 after the write.
   */
  function SendRequest(url: string, port: string, path: string, net: NetOutcome): (r: SendResult)
    ensures r.rc == HttpSent || r.rc == HttpError
    ensures r.rc == HttpSent <==>
      |RequestText(url, port, path)| < TxBuffSize && net.dnsOk && net.socketOk && net.connectOk && net.writeOk
    ensures |RequestText(url, port, path)| >= TxBuffSize ==> r == SendResult(HttpError, false, [])
    ensures r.written != [] ==> r.rc == HttpSent
    ensures r.rc == HttpSent ==> r.written == RequestText(url, port, path) && |r.written| < TxBuffSize
  {
    var (n, txBuff) := Snprintf(RequestText(url, port, path), TxBuffSize);
    if n < 0 || n >= TxBuffSize then SendResult(HttpError, false, [])
    else if !net.dnsOk || !net.socketOk || !net.connectOk then SendResult(HttpError, true, [])
    else if !net.writeOk then SendResult(HttpError, true, [])
    else SendResult(HttpSent, true, txBuff[..n])
  }
}
