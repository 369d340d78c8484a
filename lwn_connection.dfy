/** `lwnsim.Configuration.LwnConnection`: the simulator's base address and
    the three address texts derived from it, as they are handed to
    `UriBuilder`. A connection that was never configured is null: string
    concatenation turns it into the empty string, `Replace` on it raises
    `NullReferenceException`. */
module Connection {

  import opened Wrappers
  import opened Text

  const ApiSuffix: string := "/api/"
  const SocketSuffix: string := "/socket.io/"
  const HttpScheme: string := "http"
  const WsScheme: string := "ws"

  /** What the `WsUrl` property raises for a null connection. */
  datatype ConnectionError = NullReferenceException

  /** The bound configuration section; `None` is a null `Connection`. */
  datatype LwnConnection = LwnConnection(connection: Option<string>) {

    /** The text C# concatenation makes of the connection. */
    function Base(): string {
      if connection.Some? then connection.value else ""
    }

    /** The text behind `ApiUrl`: the connection followed by "/api/". */
    function ApiUrl(): (r: string)
      ensures |r| == |Base()| + |ApiSuffix| && r[..|Base()|] == Base() && r[|Base()|..] == ApiSuffix
    {
      Base() + ApiSuffix
    }

    /** The text behind `WsHttpUrl`: the connection followed by
        "/socket.io/". */
    function WsHttpUrl(): (r: string)
      ensures |r| == |Base()| + |SocketSuffix| && r[..|Base()|] == Base() && r[|Base()|..] == SocketSuffix
    {
      Base() + SocketSuffix
    }

    /** The text behind `WsUrl`: every "http" of the connection replaced by
        "ws", then "/socket.io/". */
    function WsUrl(): (r: Result<string, ConnectionError>)
      ensures r.Err? <==> connection.None?
      ensures r.Ok? ==> r.value == ReplaceAll(connection.value, HttpScheme, WsScheme) + SocketSuffix
    {
      if connection.None? then Err(NullReferenceException)
      else Ok(ReplaceAll(connection.value, HttpScheme, WsScheme) + SocketSuffix)
    }
  }

  /** Shorthand for the replacement `WsUrl` makes. */
  function ToWs(s: string): string {
    ReplaceAll(s, HttpScheme, WsScheme)
  }

  /** A replaced text whose first character is not the start of "ws" came
      from a text with the same first character, and the rest is the
      replacement of the rest. */
  lemma HeadKept(t: string)
    requires |ToWs(t)| > 0 && ToWs(t)[0] != 'w'
    ensures |t| > 0 && t[0] == ToWs(t)[0] && ToWs(t) == [t[0]] + ToWs(t[1..])
  {
    if |t| < 4 {
      assert ToWs(t) == t;
      assert ToWs(t[1..]) == t[1..];
      assert t == [t[0]] + t[1..];
    }
  }

  /** "http" never occurs where the replaced text of `t` starts with "ttp":
      such a text started with "ttp" too. */
  lemma TtpKept(t: string)
    requires |ToWs(t)| >= 3 && ToWs(t)[..3] == "ttp"
    ensures |t| >= 3 && t[..3] == "ttp"
  {
    HeadKept(t);
    var t1 := t[1..];
    assert ToWs(t1) == ToWs(t)[1..];
    HeadKept(t1);
    var t2 := t1[1..];
    assert ToWs(t2) == ToWs(t1)[1..];
    HeadKept(t2);
    assert t[..3] == [t[0], t1[0], t2[0]];
  }

  /** The replacement is complete: no "http" is left, and none is formed
      where a replacement meets the characters around it. */
  lemma {:induction false} NoHttpLeft(s: string)
    ensures !Contains(ToWs(s), HttpScheme)
    decreases |s|
  {
    var r := ToWs(s);
    if |s| < |HttpScheme| {
      NotContainsByFirst(r, HttpScheme);
    } else if s[..4] == HttpScheme {
      var rest := ToWs(s[4..]);
      NoHttpLeft(s[4..]);
      assert r == "ws" + rest;
      assert r[0] == 'w' && r[1..][0] == 's' && r[1..][1..] == rest;
      assert !IsPrefix(HttpScheme, r) && !IsPrefix(HttpScheme, r[1..]);
    } else {
      var rest := ToWs(s[1..]);
      NoHttpLeft(s[1..]);
      assert r == [s[0]] + rest && r[1..] == rest;
      if |rest| >= 3 && rest[..3] == "ttp" {
        TtpKept(s[1..]);
        assert s[..4] == [s[0]] + s[1..][..3];
      }
    }
  }

  /** A connection without "http" gives the same text for both socket
      addresses but the scheme is left alone: the polling and the
      websocket address coincide. */
  lemma NoHttpSameSocket(c: string)
    requires !Contains(c, HttpScheme)
    ensures LwnConnection(Some(c)).WsUrl() == Ok(LwnConnection(Some(c)).WsHttpUrl())
  {
    ReplaceAllAbsent(c, HttpScheme, WsScheme);
  }

  /** A leading "http" becomes "ws": "https://h" turns into "wss://h". */
  lemma ToWsHttp(t: string)
    ensures ToWs(HttpScheme + t) == WsScheme + ToWs(t)
  {
    assert (HttpScheme + t)[..4] == HttpScheme && (HttpScheme + t)[4..] == t;
  }

  /** A leading character other than 'h' is kept; in particular an
      upper-case "HTTP" is not replaced. */
  lemma ToWsOther(c: char, t: string)
    requires c != 'h'
    ensures ToWs([c] + t) == [c] + ToWs(t)
  {
    var s := [c] + t;
    assert s[1..] == t;
    if |s| < 4 {
      assert ToWs(t) == t;
    } else {
      assert s[..4][0] == c;
    }
  }

  /** The API address of "http://h", and of a null connection. */
  lemma ApiExamples()
    ensures LwnConnection(Some("http://h")).ApiUrl() == "http://h/api/"
    ensures LwnConnection(None).ApiUrl() == "/api/"
  {
  }
}
