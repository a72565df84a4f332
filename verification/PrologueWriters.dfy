/** The two connections whose first write puts a prologue in front of the payload. */
module PrologueWriters {
  import opened ProxyResponse
  import opened Wrappers

  datatype Error = Error(code: nat)

  /** What the connection underneath does with a write: how many bytes go out, and an error.
      A write cut short comes with an error. */
  datatype Outcome = Outcome(n: nat, error: Option<Error>)
  {
    predicate Fits(b: string) {
      n <= |b| && (n < |b| ==> error != None)
    }
  }

  /** The state of a writer: what is still to be put first, the error that stopped it, and the
      bytes that went out so far. */
  datatype Writer = Writer(prologue: string, done: bool, stopped: Option<Error>, wire: string)

  /** What the connection underneath is asked to write. */
  function Asked(w: Writer, b: string): string {
    if w.done then b else w.prologue + b
  }

  function Sent(w: Writer, b: string, o: Outcome): Writer
    requires o.Fits(Asked(w, b))
  {
    if w.stopped != None then w
    else
      Writer("", true, if w.done then None else o.error, w.wire + Asked(w, b)[..o.n])
  }

  /** What the caller is told. */
  function Told(w: Writer, b: string, o: Outcome): (nat, Option<Error>)
    requires o.Fits(Asked(w, b))
  {
    if w.stopped != None then (0, w.stopped)
    else (if w.done then o.n else if o.n > |w.prologue| then o.n - |w.prologue| else 0, o.error)
  }

  // ---- The two classes ----

  function ConnectRequest(address: string, credentials: Option<string>): string {
    ("CONNECT " + address + " HTTP/1.1\r\n") + ("Host: " + address + "\r\n")
    + (if credentials == None then "" else "Proxy-Authorization: " + credentials.value + "\r\n")
    + "User-Agent: dumbproxy\r\n\r\n"
  }

  /** Lines, each ended, and an empty one after them. */
  function Head(lines: seq<string>): string {
    if lines == [] then "\r\n" else lines[0] + "\r\n" + Head(lines[1..])
  }

  ghost predicate Plain(lines: seq<string>) {
    forall i :: 0 <= i < |lines| ==> lines[i] != "" && '\r' !in lines[i]
  }

  lemma EndsHeadByChar(s: string, n: nat)
    requires n <= |s|
    ensures EndsHead(s[..n]) <==> n >= 4 && s[n - 4] == '\r' && s[n - 3] == '\n' && s[n - 2] == '\r' && s[n - 1] == '\n'
  {
    if n >= 4 {
      assert s[..n][n - 4..] == [s[n - 4], s[n - 3], s[n - 2], s[n - 1]];
    }
  }

  /** The first line, its end, and what comes after it. */
  predicate StartsWithLine(s: string, l: string, rest: string) {
    |s| == |l| + 2 + |rest| && s[..|l|] == l && s[|l|] == '\r' && s[|l| + 1] == '\n' && s[|l| + 2..] == rest
  }

  lemma NoEmptyLineInside(s: string, l: string, rest: string, n: nat)
    requires StartsWithLine(s, l, rest) && '\r' !in l && n < |l| + 4 && n <= |s|
    ensures !EndsHead(s[..n])
  {
    EndsHeadByChar(s, n);
    if n >= 4 {
      assert s[n - 4] == l[n - 4] && l[n - 4] in l;
    }
  }

  lemma EmptyLineAcrossEnd(s: string, l: string, rest: string, n: nat)
    requires StartsWithLine(s, l, rest) && |l| + 4 <= n < |l| + 6 && n <= |s|
    requires rest == "\r\n" || (|rest| >= 5 && rest[0] != '\r')
    ensures EndsHead(s[..n]) <==> n == |s|
  {
    EndsHeadByChar(s, n);
    assert s[|l| + 2] == rest[0] && s[|l| + 3] == rest[1];
  }

  lemma EmptyLineInRest(s: string, l: string, rest: string, n: nat)
    requires StartsWithLine(s, l, rest) && |l| + 6 <= n <= |s|
    ensures EndsHead(s[..n]) <==> EndsHead(rest[..n - |l| - 2])
  {
    EndsHeadByChar(s, n);
    EndsHeadByChar(rest, n - |l| - 2);
  }

  lemma {:induction false} EmptyLineIsLast(lines: seq<string>, n: nat)
    requires Plain(lines) && lines != [] && n <= |Head(lines)|
    ensures EndsHead(Head(lines)[..n]) <==> n == |Head(lines)|
  {
    var (s, l, rest) := (Head(lines), lines[0], Head(lines[1..]));
    assert StartsWithLine(s, l, rest);
    HeadStarts(lines[1..]);
    hide EndsHead, Head;
    if n < |l| + 4 {
      NoEmptyLineInside(s, l, rest, n);
    } else if n < |l| + 6 {
      EmptyLineAcrossEnd(s, l, rest, n);
    } else {
      EmptyLineInRest(s, l, rest, n);
      EmptyLineIsLast(lines[1..], n - |l| - 2);
    }
  }

  lemma HeadStarts(lines: seq<string>)
    requires Plain(lines)
    ensures if lines == [] then Head(lines) == "\r\n" else |Head(lines)| >= 5 && Head(lines)[0] != '\r'
  {
    if lines != [] {
      assert |Head(lines[1..])| >= 2;
      assert lines[0][0] in lines[0];
    }
  }

  /** A proxy that reads up to the first empty line reads the whole request and nothing after it. */
  lemma {:induction false} RequestIsOneHead(address: string, credentials: Option<string>, payload: string, n: nat)
    requires '\r' !in address && (credentials != None ==> '\r' !in credentials.value)
    requires n <= |ConnectRequest(address, credentials)|
    ensures EndsHead((ConnectRequest(address, credentials) + payload)[..n]) <==> n == |ConnectRequest(address, credentials)|
  {
    var request := ConnectRequest(address, credentials);
    var lines := ["CONNECT " + address + " HTTP/1.1", "Host: " + address]
      + (if credentials == None then [] else ["Proxy-Authorization: " + credentials.value]) + ["User-Agent: dumbproxy"];
    assert (request + payload)[..n] == request[..n];
    assert request == Head(lines) by {
      RequestIsHead(address, credentials, lines);
    }
    EmptyLineIsLast(lines, n);
  }

  lemma OneLine(line: string, rest: seq<string>)
    ensures Head([line] + rest) == line + "\r\n" + Head(rest)
  {
    assert ([line] + rest)[1..] == rest;
  }

  lemma RequestIsHead(address: string, credentials: Option<string>, lines: seq<string>)
    requires lines == ["CONNECT " + address + " HTTP/1.1", "Host: " + address]
      + (if credentials == None then [] else ["Proxy-Authorization: " + credentials.value]) + ["User-Agent: dumbproxy"]
    ensures ConnectRequest(address, credentials) == Head(lines)
  {
    var (connect, host, agent) := ("CONNECT " + address + " HTTP/1.1", "Host: " + address, ["User-Agent: dumbproxy"]);
    var authorization := if credentials == None then [] else ["Proxy-Authorization: " + credentials.value];
    var written := if credentials == None then "" else "Proxy-Authorization: " + credentials.value + "\r\n";
    OneLine(agent[0], []);
    assert agent == agent + [] && Head(agent) == "User-Agent: dumbproxy\r\n\r\n";
    assert Head(authorization + agent) == written + Head(agent) by {
      if credentials == None {
        assert authorization + agent == agent;
      } else {
        OneLine(authorization[0], agent);
      }
    }
    OneLine(host, authorization + agent);
    OneLine(connect, [host] + (authorization + agent));
    assert lines == [connect] + ([host] + (authorization + agent));
    assert "CONNECT " + address + " HTTP/1.1\r\n" == connect + "\r\n";
    hide Head;
    Regrouped(connect + "\r\n", host + "\r\n", written, Head(agent));
  }

  lemma Regrouped(a: string, b: string, c: string, d: string)
    ensures a + b + c + d == a + (b + (c + d))
  {
  }

  /** A connection that sends its CONNECT request together with the first payload. */
  class FutureH1ProxiedConn {
    var address: string
    var credentials: Option<string>
    var wDone: bool
    var wErr: Option<Error>
    ghost var wire: string

    ghost function State(): Writer
      reads this
    {
      Writer(if wDone then "" else ConnectRequest(address, credentials), wDone, wErr, wire)
    }

    constructor (address: string, credentials: Option<string>)
      ensures State() == Writer(ConnectRequest(address, credentials), false, None, "")
    {
      this.address := address;
      this.credentials := credentials;
      wDone := false;
      wErr := None;
      wire := "";
    }

    method Write(b: string, o: Outcome) returns (n: nat, err: Option<Error>)
      requires o.Fits(Asked(State(), b))
      modifies this
      ensures State() == Sent(old(State()), b, o)
      ensures (n, err) == Told(old(State()), b, o)
    {
      if wErr != None {
        return 0, wErr;
      }
      if !wDone {
        var prologue := ConnectRequest(address, credentials);
        var buf := prologue + b;
        wire := wire + buf[..o.n];
        if o.error != None {
          wErr := o.error;
        }
        wDone := true;
        address := "";
        credentials := None;
        return if o.n > |prologue| then o.n - |prologue| else 0, o.error;
      }
      wire := wire + b[..o.n];
      return o.n, o.error;
    }
  }

  /** A connection that sends pending data together with the first payload. */
  class PendingWriteConn {
    var data: string
    var done: bool
    var wErr: Option<Error>
    ghost var wire: string

    ghost function State(): Writer
      reads this
    {
      Writer(if done then "" else data, done, wErr, wire)
    }

    constructor (data: string)
      ensures State() == Writer(data, false, None, "")
    {
      this.data := data;
      done := false;
      wErr := None;
      wire := "";
    }

    method Write(b: string, o: Outcome) returns (n: nat, err: Option<Error>)
      requires o.Fits(Asked(State(), b))
      modifies this
      ensures State() == Sent(old(State()), b, o)
      ensures (n, err) == Told(old(State()), b, o)
    {
      if wErr != None {
        return 0, wErr;
      }
      if !done {
        var buf := data + b;
        wire := wire + buf[..o.n];
        if o.error != None {
          wErr := o.error;
        }
        n := if o.n > |data| then o.n - |data| else 0;
        done := true;
        data := "";
        return n, o.error;
      }
      wire := wire + b[..o.n];
      return o.n, o.error;
    }
  }

  // ---- Runs of writes ----

  datatype Call = Call(b: string, o: Outcome)

  /** The run is possible, and no write after the first fails before the last one. */
  ghost predicate Plausible(w: Writer, calls: seq<Call>) {
    calls == [] ||
    var (earlier, call) := (calls[..|calls| - 1], calls[|calls| - 1]);
    && Plausible(w, earlier)
    && (earlier != [] ==> earlier[|earlier| - 1].o.error == None || After(w, earlier).stopped != None)
    && call.o.Fits(Asked(After(w, earlier), call.b))
  }

  ghost function After(w: Writer, calls: seq<Call>): Writer {
    if calls == [] then w
    else
      var (earlier, call) := (calls[..|calls| - 1], calls[|calls| - 1]);
      var v := After(w, earlier);
      if call.o.Fits(Asked(v, call.b)) then Sent(v, call.b, call.o) else v
  }

  ghost function TotalTold(w: Writer, calls: seq<Call>): nat {
    if calls == [] then 0
    else
      var (earlier, call) := (calls[..|calls| - 1], calls[|calls| - 1]);
      var v := After(w, earlier);
      TotalTold(w, earlier) + if call.o.Fits(Asked(v, call.b)) then Told(v, call.b, call.o).0 else 0
  }

  function Payload(calls: seq<Call>): string {
    if calls == [] then "" else Payload(calls[..|calls| - 1]) + calls[|calls| - 1].b
  }

  lemma PrefixGrows(s: string, b: string, n: nat)
    requires n <= |b|
    ensures s + b[..n] <= s + b && (n == |b| ==> s + b[..n] == s + b)
  {
  }

  /** Up to the first failure of a write after the first, and forever if the first fails, the
      bytes on the wire are a prefix of the prologue followed by the payload, and the callers are
      told as many bytes in all as went out beyond the prologue. */
  lemma {:induction false} WireIsPrologueThenPayload(prologue: string, calls: seq<Call>)
    requires Plausible(Writer(prologue, false, None, ""), calls)
    ensures var (start, sent) := (Writer(prologue, false, None, ""), After(Writer(prologue, false, None, ""), calls));
      && sent.wire <= prologue + Payload(calls)
      && TotalTold(start, calls) == (if |sent.wire| > |prologue| then |sent.wire| - |prologue| else 0)
      && (calls == [] ==> sent == start)
      && (calls != [] ==> sent.done && sent.prologue == "")
      && (calls != [] && calls[|calls| - 1].o.error == None && sent.stopped == None ==> sent.wire == prologue + Payload(calls))
  {
    if calls != [] {
      var (earlier, call) := (calls[..|calls| - 1], calls[|calls| - 1]);
      WireIsPrologueThenPayload(prologue, earlier);
      var before := After(Writer(prologue, false, None, ""), earlier);
      hide After, TotalTold, Plausible, Payload;
      assert prologue + Payload(calls) == (prologue + Payload(earlier)) + call.b;
      if before.stopped == None && earlier != [] {
        PrefixGrows(prologue + Payload(earlier), call.b, call.o.n);
      }
    }
  }

  // ---- Errors ----

  /** A write that goes through reports the error of the write underneath and never more bytes than
      it was given; one after a failed first write reports that failure and sends nothing. */
  lemma {:induction false} ErrorsReachCaller(w: Writer, b: string, o: Outcome)
    requires o.Fits(Asked(w, b))
    ensures var ((n, error), v) := (Told(w, b, o), Sent(w, b, o));
      && n <= |b|
      && (w.stopped == None ==> error == o.error)
      && (w.stopped != None ==> error == w.stopped && n == 0 && v == w)
      && (error == None ==> n == |b|)
      && (v.stopped != None <==> w.stopped != None || (!w.done && o.error != None))
      && (w.stopped == None && v.stopped != None ==> v.stopped == o.error)
  {
  }

  /** If the first write fails, every later one reports its error, and the wire stays as it is. */
  lemma {:induction false} FirstFailureIsFinal(prologue: string, calls: seq<Call>)
    requires Plausible(Writer(prologue, false, None, ""), calls) && |calls| > 1 && calls[0].o.error != None
    ensures var (start, last) := (Writer(prologue, false, None, ""), calls[|calls| - 1]);
      var before := After(start, calls[..|calls| - 1]);
      && Told(before, last.b, last.o) == (0, calls[0].o.error)
      && After(start, calls).wire == After(start, calls[..1]).wire && After(start, calls).stopped == calls[0].o.error
  {
    var start := Writer(prologue, false, None, "");
    var earlier := calls[..|calls| - 1];
    if |earlier| == 1 {
      assert earlier == calls[..1] && earlier[..0] == [];
      assert After(start, []) == start;
    } else {
      assert earlier[..1] == calls[..1];
      FirstFailureIsFinal(prologue, earlier);
    }
  }
}
