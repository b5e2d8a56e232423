/** The proxy's per-connection decisions and helpers: the pass-through
    handler, how a connection is dispatched and its context built, the
    target URL of a relayed request, the host:port defaulting helper, and how
    a tunnel's two directions combine into one error. */
module Proxy {
  import opened Common
  import opened Strs
  import opened Streams

  /** What every handler call learns about its connection. */
  datatype ConnContext = ConnContext(host: string, proxyAuthorization: string, proxyConnection: string)

  /** The handler that relays bytes unchanged in both directions. Both calls
      ignore the connection context. */
  class SimpleHandler {

    constructor ()
    {
    }

    method SendUpstream(ctx: ConnContext, w: Writer, r: Reader) returns (err: Option<Error>)
      modifies w, r
      ensures var t := CopySpec(old(r.script), old(w.script));
        w.sink == old(w.sink) + t.sent && err == t.result &&
        r.script == t.readsLeft && w.script == t.writesLeft
      ensures err == None ==> w.sink == old(w.sink) + Delivered(old(r.script))
    {
      ghost var rs := r.script;
      ghost var ws := w.script;
      err := Copy(w, r);
      if err == None {
        CopySuccessIsComplete(rs, ws);
      }
    }

    method SendDownstream(ctx: ConnContext, w: Writer, r: Reader) returns (err: Option<Error>)
      modifies w, r
      ensures var t := CopySpec(old(r.script), old(w.script));
        w.sink == old(w.sink) + t.sent && err == t.result &&
        r.script == t.readsLeft && w.script == t.writesLeft
      ensures err == None ==> w.sink == old(w.sink) + Delivered(old(r.script))
    {
      ghost var rs := r.script;
      ghost var ws := w.script;
      err := Copy(w, r);
      if err == None {
        CopySuccessIsComplete(rs, ws);
      }
    }
  }

  /** The parts of a parsed request that the connection handler looks at.
      Header names are in canonical form, as the request parser leaves them. */
  datatype Request = Request(verb: string, host: string, header: map<string, seq<string>>)

  /** http.Header.Get: the first value stored under a name, or "". */
  function HeaderGet(header: map<string, seq<string>>, name: string): (v: string)
    ensures name !in header || header[name] == [] ==> v == ""
    ensures name in header && header[name] != [] ==> v == header[name][0]
  {
    if name in header && header[name] != [] then header[name][0] else ""
  }

  datatype Branch = Tunnel | Relay

  datatype Dispatch = Dispatch(branch: Branch, ctx: ConnContext)

  /** The decision `handle` takes on a parsed request: tunnel exactly for the
      method CONNECT (case-sensitive), relay otherwise, with one context
      built from the Host and the two proxy headers whatever the branch. */
  function Handle(req: Request): (d: Dispatch)
    ensures d.branch == Tunnel <==> req.verb == "CONNECT"
    ensures d.ctx.host == req.host
    ensures d.ctx.proxyAuthorization == HeaderGet(req.header, "Proxy-Authorization")
    ensures d.ctx.proxyConnection == HeaderGet(req.header, "Proxy-Connection")
  {
    var ctx := ConnContext(req.host,
                           HeaderGet(req.header, "Proxy-Authorization"),
                           HeaderGet(req.header, "Proxy-Connection"));
    Dispatch(if req.verb == "CONNECT" then Tunnel else Relay, ctx)
  }

  /** The fields of a request URL that the relay uses. */
  datatype URL = URL(host: string, path: string, rawQuery: string)

  /** The target of a relayed request: `http://`, host, path, `?` and the raw
      query; the `?` is there even when the query is empty. */
  function FmtURL(u: URL): (s: string)
    ensures |s| == 8 + |u.host| + |u.path| + |u.rawQuery|
    ensures s[..7] == "http://"
    ensures s[|s| - |u.rawQuery| - 1] == '?' && s[|s| - |u.rawQuery|..] == u.rawQuery
  {
    "http://" + u.host + u.path + "?" + u.rawQuery
  }

  /** Reads the three fields back from a formatted target: the host runs to
      the first `/`, the path to the first `?`, the query to the end. */
  function ParseTarget(s: string): Option<URL> {
    if |s| < 7 || s[..7] != "http://" then None
    else
      var q := Cut(s[7..], "?");
      if !q.found then None
      else
        var h := Cut(q.before, "/");
        Some(URL(h.before, if h.found then "/" + h.after else "", q.after))
  }

  /** Formatting loses nothing when the host holds no `/`, neither host nor
      path holds a `?`, and the path is empty or starts with `/`. */
  lemma FmtURLRoundTrip(u: URL)
    requires '/' !in u.host && '?' !in u.host && '?' !in u.path
    requires u.path == "" || u.path[0] == '/'
    ensures ParseTarget(FmtURL(u)) == Some(u)
  {
    var s := FmtURL(u);
    assert s[..7] == "http://";
    assert s[7..] == (u.host + u.path) + ['?'] + u.rawQuery;
    assert '?' !in u.host + u.path;
    CutAtFirst(u.host + u.path, '?', u.rawQuery);
    if u.path == "" {
      assert u.host + u.path == u.host;
      CutSingleBefore(u.host, '/');
    } else {
      assert u.host + u.path == u.host + ['/'] + u.path[1..];
      CutAtFirst(u.host, '/', u.path[1..]);
      assert "/" + u.path[1..] == u.path;
    }
  }

  datatype HostPort = HostPort(host: string, port: string)

  /** net.SplitHostPort, with None for each of its errors: the port follows
      the last `:`; a host that starts with `[` must end with the `]` just
      before that colon; otherwise the host may hold no `:`; and no stray
      bracket may appear. */
  function SplitHostPort(hostport: string): (r: Option<HostPort>)
    ensures r.Some? ==> ':' in hostport
  {
    match LastIndexByte(hostport, ':')
    case None => None
    case Some(i) =>
      if hostport[0] == '[' then SplitBracketed(hostport, i) else SplitPlain(hostport, i)
  }

  /** SplitHostPort for `[host]:port`, the last `:` being at `i`. */
  function SplitBracketed(hostport: string, i: nat): Option<HostPort>
    requires i < |hostport| && hostport[0] == '['
  {
    match IndexByte(hostport, ']')
    case None => None
    case Some(end) =>
      if end + 1 == |hostport| then None
      else if end + 1 != i then None
      else if '[' in hostport[1..] then None
      else if ']' in hostport[end + 1..] then None
      else Some(HostPort(hostport[1..end], hostport[i + 1..]))
  }

  /** SplitHostPort for `host:port`, the last `:` being at `i`. */
  function SplitPlain(hostport: string, i: nat): Option<HostPort>
    requires i < |hostport|
  {
    var host := hostport[..i];
    if ':' in host then None
    else if '[' in hostport then None
    else if ']' in hostport then None
    else Some(HostPort(host, hostport[i + 1..]))
  }

  /** net.JoinHostPort: a host holding a `:` is put in brackets. */
  function JoinHostPort(host: string, port: string): (s: string)
    ensures ':' !in host ==> s == host + ":" + port
    ensures ':' in host ==> s == "[" + host + "]:" + port
  {
    if IndexByte(host, ':').Some? then "[" + host + "]:" + port else host + ":" + port
  }

  /** produceHostPort, by its three cases: a bare target gets `:80`; a
      target with a `:` that is not a valid host:port is left alone; a valid
      host:port is bracketed as if it were a host, and `:80` appended. */
  function ProduceHostPort(target: string): (hp: string)
    ensures ':' !in target ==> hp == target + ":80"
    ensures ':' in target && SplitHostPort(target).None? ==> hp == target
    ensures SplitHostPort(target).Some? ==> hp == "[" + target + "]:80"
  {
    ContainsChar(target, ':');
    assert ":" == [':'];
    if Contains(target, ":") && SplitHostPort(target).None? then target else JoinHostPort(target, "80")
  }

  /** A bracketed host without brackets of its own, followed by `:80`, splits
      back into that host and port 80. */
  lemma SplitOfBracketed(host: string)
    requires '[' !in host && ']' !in host
    ensures SplitHostPort("[" + host + "]:80") == Some(HostPort(host, "80"))
  {
    var s := "[" + host + "]:" + "80";
    assert s == "[" + host + "]:80";
    BracketedIndices(host, "80");
    BracketedSlices(host, "80");
    assert SplitBracketed(s, |host| + 2) == Some(HostPort(host, "80"));
  }

  /** Where the brackets and the last colon of `[host]:port` are. */
  lemma BracketedIndices(host: string, port: string)
    requires ']' !in host && ':' !in port
    ensures var s, n := "[" + host + "]:" + port, |host|;
      s[0] == '[' && IndexByte(s, ']') == Some(n + 1) && LastIndexByte(s, ':') == Some(n + 2)
  {
    var s := "[" + host + "]:" + port;
    LastIndexByteBefore("[" + host + "]", ':', port);
    IndexByteAfter("[" + host, ']', ":" + port);
    assert s == ("[" + host + "]") + [':'] + port == ("[" + host) + [']'] + (":" + port);
  }

  /** The parts of `[host]:port` that SplitHostPort looks at. */
  lemma BracketedSlices(host: string, port: string)
    requires '[' !in host && '[' !in port && ']' !in port
    ensures var s, n := "[" + host + "]:" + port, |host|;
      '[' !in s[1..] && ']' !in s[n + 2..] && s[1..n + 1] == host && s[n + 3..] == port
  {
  }

  /** The default is inverted: a valid host:port without brackets comes out as
      a host named after the whole target, on port 80, so the port the client
      asked for is never the one that would be dialled. */
  lemma ProduceHostPortDropsPort(target: string)
    requires SplitHostPort(target).Some?
    requires '[' !in target && ']' !in target
    ensures SplitHostPort(ProduceHostPort(target)) == Some(HostPort(target, "80"))
  {
    SplitOfBracketed(target);
  }

  /** For a bare host name the default does what it is meant to: the host is
      kept and port 80 is added. */
  lemma ProduceHostPortBareHost(target: string)
    requires ':' !in target && '[' !in target && ']' !in target
    ensures SplitHostPort(ProduceHostPort(target)) == Some(HostPort(target, "80"))
  {
  }


  /** Which direction of a tunnel finished first. */
  datatype Direction = Upstream | Downstream

  /** The tunnel's error: the first direction to finish decides if it failed;
      otherwise the other direction's result is returned. */
  function TunnelResult(up: Option<Error>, down: Option<Error>, first: Direction): (r: Option<Error>)
    ensures r == None <==> up == None && down == None
    ensures r == up || r == down
    ensures up == None || down == None ==> r == (if up == None then down else up)
    ensures up != None && down != None ==> r == (if first == Upstream then up else down)
  {
    var (firstResult, secondResult) := if first == Upstream then (up, down) else (down, up);
    if firstResult != None then firstResult else secondResult
  }
}
