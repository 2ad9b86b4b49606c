/**
 * Where the sync agent (local_anki_adder.py) sends its requests: one
 * AnkiConnect port per configured user, derived from the user's position in
 * user_configs.json, and the bot's server URL with nine successor ports to
 * fall back on.
 */
module SyncUrls {
  import opened Wrappers
  import opened Seqs
  import opened Strings

  /** AnkiConnect's own port; every user's port is counted from it. */
  const AnkiBasePort: nat := 8765

  /** The "deck_name" and "note_type" entries of one user's configuration. */
  datatype UserConfig = UserConfig(deckName: Option<string>, noteType: Option<string>)

  /** USER_CONFIGS: the JSON object's keys in file order, and its entries. */
  datatype Configs = Configs(keys: seq<string>, entries: map<string, UserConfig>)

  /** The keys with the first "default" removed (`list.remove('default')`). */
  function AssignedUsers(keys: seq<string>): (r: seq<string>)
    ensures "default" in keys ==> |r| == |keys| - 1
    ensures "default" !in keys ==> r == keys
    ensures forall u :: u in r ==> u in keys
    ensures forall u :: u in keys && u != "default" ==> u in r
    ensures "default" in keys ==> exists k :: 0 <= k < |keys| && keys[k] == "default" && "default" !in keys[..k]
                                                && r == keys[..k] + keys[k + 1..]
  {
    match IndexIn(keys, "default")
    case None => keys
    case Some(k) =>
      assert forall u :: u in keys ==> u in keys[..k] || u == keys[k] || u in keys[k + 1..] by {
        assert keys == keys[..k] + [keys[k]] + keys[k + 1..];
      }
      keys[..k] + keys[k + 1..]
  }

  /** With distinct keys, "default" itself is never assigned a port of its own. */
  lemma DefaultNotAssigned(keys: seq<string>)
    requires forall i, j :: 0 <= i < j < |keys| ==> keys[i] != keys[j]
    ensures "default" !in AssignedUsers(keys)
  {
    var k := IndexIn(keys, "default");
    if k.Some? {
      var r := AssignedUsers(keys);
      forall i | 0 <= i < |r|
        ensures r[i] != "default"
      {
        if i < k.value {
          assert r[i] == keys[i];
        } else {
          assert r[i] == keys[i + 1];
        }
      }
    }
  }

  /** The AnkiConnect port of a user: 8765 + position + 1 among the assigned users, else 8765. */
  function UserPort(keys: seq<string>, user: string): (p: nat)
    ensures user in AssignedUsers(keys) ==> AnkiBasePort < p <= AnkiBasePort + |AssignedUsers(keys)|
    ensures user !in AssignedUsers(keys) ==> p == AnkiBasePort
    ensures forall i :: (0 <= i < |AssignedUsers(keys)| && AssignedUsers(keys)[i] == user &&
                         user !in AssignedUsers(keys)[..i]) ==> p == AnkiBasePort + i + 1
  {
    IndexInFirst(AssignedUsers(keys), user);
    match IndexIn(AssignedUsers(keys), user)
    case Some(i) => AnkiBasePort + i + 1
    case None => AnkiBasePort
  }

  /** Distinct configured users never share a port. */
  lemma DistinctUsersDistinctPorts(keys: seq<string>, u: string, v: string)
    requires u != v && u in AssignedUsers(keys) && v in AssignedUsers(keys)
    ensures UserPort(keys, u) != UserPort(keys, v)
    ensures UserPort(keys, u) > AnkiBasePort && UserPort(keys, v) > AnkiBasePort
  {
    var users := AssignedUsers(keys);
    var i, j := IndexIn(users, u), IndexIn(users, v);
    assert users[i.value] != users[j.value];
  }

  /** The worked example: with keys "default", "7", "42" the users get 8766 and 8767. */
  lemma ExamplePorts()
    ensures UserPort(["default", "7", "42"], "7") == 8766
    ensures UserPort(["default", "7", "42"], "42") == 8767
    ensures UserPort(["default", "7", "42"], "default") == 8765
  {
    var keys := ["default", "7", "42"];
    assert keys[0] == "default";
    assert IndexIn(keys, "default") == Some(0);
    var users := AssignedUsers(keys);
    assert users == ["7", "42"];
    assert "7" != "42" by { assert "7"[0] != "42"[0]; }
    assert users[..1] == ["7"];
    assert "default" !in users by {
      assert "default" != "7" && "default" != "42";
    }
  }

  /**
   * `get_anki_connect_url`: the base URL for a missing or empty user id or a
   * base without "://"; otherwise the base's protocol and host name with the
   * user's port, any path dropped. The host name is what precedes the first
   * ':' after "://" if there is one, else what precedes the first '/'.
   */
  function AnkiConnectUrl(base: string, keys: seq<string>, userId: Option<string>): (url: string)
    ensures userId.None? || userId == Some("") ==> url == base
  {
    if userId.None? || userId.value == "" then base
    else match FindFirst(base, "://")
      case None => base
      case Some(k) =>
        var protocol := base[..k];
        var rest := base[k + 3..];
        var host := if ':' in rest then BeforeFirst(rest, ':') else BeforeFirst(rest, '/');
        protocol + "://" + host + ":" + NatToString(UserPort(keys, userId.value))
  }

  /**
   * For a base of the usual shape, protocol "://" host and then a port or a
   * path, the user's URL keeps protocol and host and carries the user's port.
   */
  lemma AnkiConnectUrlShape(protocol: string, host: string, tail: string, keys: seq<string>, user: string)
    requires user != "" && ':' !in protocol && ':' !in host && '/' !in host
    requires tail == [] || tail[0] == ':' || (tail[0] == '/' && ':' !in tail)
    ensures AnkiConnectUrl(protocol + "://" + host + tail, keys, Some(user))
         == protocol + "://" + host + ":" + NatToString(UserPort(keys, user))
  {
    SchemeAt(protocol, host + tail);
    ConcatAssoc(protocol + "://", host, tail);
    HostOf(host, tail);
  }

  /** With no ':' before it, the first "://" follows the protocol. */
  lemma SchemeAt(protocol: string, rest: string)
    requires ':' !in protocol
    ensures var base := protocol + "://" + rest;
      && FindFirst(base, "://") == Some(|protocol|)
      && base[..|protocol|] == protocol && base[|protocol| + 3..] == rest
  {
    var after := "://" + rest;
    assert protocol + "://" + rest == protocol + after;
    assert StartsWith(after, "://") by { assert after[..3] == "://"; }
    FindFirstAfterFree(protocol, after, "://");
  }

  /** The host name rule applied to "<host><tail>" gives the host back. */
  lemma HostOf(host: string, tail: string)
    requires ':' !in host && '/' !in host
    requires tail == [] || tail[0] == ':' || (tail[0] == '/' && ':' !in tail)
    ensures var rest := host + tail;
      (if ':' in rest then BeforeFirst(rest, ':') else BeforeFirst(rest, '/')) == host
  {
    var rest := host + tail;
    if tail == [] {
      assert rest == host;
    } else if tail[0] == ':' {
      SplitAtFirst(host, ':', tail[1..]);
      assert host + [':'] + tail[1..] == rest;
    } else {
      assert ':' !in rest;
      SplitAtFirst(host, '/', tail[1..]);
      assert host + ['/'] + tail[1..] == rest;
    }
  }

  /** The main server URL and the alternatives tried after it. */
  datatype Fallback = Fallback(main: string, alternatives: seq<string>)

  /**
   * `get_server_url_with_fallback`. The URL is split at every ':'; with at
   * least three pieces, the last one's text before any '/' is the port and
   * the rest the path, and the alternatives are the same URL with ports
   * port + 1 to port + 9. Otherwise there are no alternatives.
   */
  function ServerUrlWithFallback(url: string): (f: Fallback)
    ensures f.main == url
    ensures f.alternatives == [] || |f.alternatives| == 9
  {
    if ':' !in url then Fallback(url, [])
    else
      var parts := Split(url, ':');
      if |parts| < 3 then Fallback(url, [])
      else
        var hostPart := Join(parts[..|parts| - 1], ':');
        var last := parts[|parts| - 1];
        match ParseNat(BeforeFirst(last, '/'))
        case None => Fallback(url, [])
        case Some(port) =>
          var path := if '/' in last then "/" + AfterFirst(last, '/') else "";
          Fallback(url, Alternatives(hostPart, port, path))
  }

  /** The nine URLs on the ports after `port`, in increasing order. */
  function Alternatives(hostPart: string, port: nat, path: string): (urls: seq<string>)
    ensures |urls| == 9
    ensures forall i :: 0 <= i < 9 ==> urls[i] == hostPart + ":" + NatToString(port + i + 1) + path
  {
    seq(9, i requires 0 <= i < 9 => hostPart + ":" + NatToString(port + i + 1) + path)
  }

  /**
   * A URL with a scheme and a numeric port is kept as it is, followed by
   * nine alternatives on the next nine ports with the same host and path.
   */
  lemma FallbackPorts(hostPart: string, port: nat, path: string)
    requires ':' in hostPart
    requires ':' !in path && (path == [] || path[0] == '/')
    ensures ServerUrlWithFallback(hostPart + ":" + NatToString(port) + path).alternatives
         == Alternatives(hostPart, port, path)
  {
    var digits := NatToString(port);
    assert IsDigits(digits);
    var last := digits + path;
    var url := hostPart + ":" + digits + path;
    ConcatAssoc(hostPart + ":", digits, path);
    SplitLastPiece(hostPart, last);
    PortAndPath(digits, path);
    ParseNatToString(port);
    assert ':' in url by { assert url[|hostPart|] == ':'; }
    FallbackOfPieces(url, hostPart, last, port, path);
  }

  /** How `ServerUrlWithFallback` reads a URL once its pieces are known. */
  lemma FallbackOfPieces(url: string, hostPart: string, last: string, port: nat, path: string)
    requires ':' in url
    requires var parts := Split(url, ':');
      |parts| >= 3 && parts[|parts| - 1] == last && Join(parts[..|parts| - 1], ':') == hostPart
    requires ParseNat(BeforeFirst(last, '/')) == Some(port)
    requires (if '/' in last then "/" + AfterFirst(last, '/') else "") == path
    ensures ServerUrlWithFallback(url).alternatives == Alternatives(hostPart, port, path)
  {
  }

  /** Splitting "<host part>:<last>" at ':' ends with `last`, and the other pieces join back to the host part. */
  lemma SplitLastPiece(hostPart: string, last: string)
    requires ':' in hostPart && ':' !in last
    ensures var parts := Split(hostPart + ":" + last, ':');
      && |parts| >= 3
      && parts[|parts| - 1] == last
      && Join(parts[..|parts| - 1], ':') == hostPart
  {
    assert hostPart + ":" + last == hostPart + [':'] + last;
    SplitConcat(hostPart, last, ':');
    SplitNoSeparator(last, ':');
    var a, b := BeforeFirst(hostPart, ':'), AfterFirst(hostPart, ':');
    SplitConcat(a, b, ':');
    var parts := Split(hostPart + ":" + last, ':');
    assert parts == Split(hostPart, ':') + [last];
    assert parts[..|parts| - 1] == Split(hostPart, ':');
    JoinSplit(hostPart, ':');
  }

  /** The last piece "<digits><path>" yields the digits as port text and gives the path back. */
  lemma PortAndPath(digits: string, path: string)
    requires '/' !in digits
    requires path == [] || path[0] == '/'
    ensures BeforeFirst(digits + path, '/') == digits
    ensures (if '/' in digits + path then "/" + AfterFirst(digits + path, '/') else "") == path
  {
    if path == [] {
      assert digits + path == digits;
    } else {
      SplitAtFirst(digits, '/', path[1..]);
      assert digits + ['/'] + path[1..] == digits + path;
    }
  }

  /** A URL with no ':' at all names no port, so there is nothing to fall back on. */
  lemma NoColonNoFallback(url: string)
    requires ':' !in url
    ensures ServerUrlWithFallback(url).alternatives == []
  {
  }

  /**
   * A URL whose port text (after the last ':', before any '/') holds no
   * decimal digit has no alternatives: `int()` fails and the original URL is
   * used alone.
   */
  lemma NonNumericPortNoFallback(hostPart: string, last: string)
    requires ':' in hostPart && ':' !in last
    requires var port := BeforeFirst(last, '/'); forall i :: 0 <= i < |port| ==> !('0' <= port[i] <= '9')
    ensures ServerUrlWithFallback(hostPart + ":" + last).alternatives == []
  {
    var url := hostPart + ":" + last;
    var port := BeforeFirst(last, '/');
    assert ParseNat(port).None? by {
      if port != [] {
        assert !('0' <= port[0] <= '9');
      }
    }
    SplitLastPiece(hostPart, last);
    assert ':' in url by { assert url[|hostPart|] == ':'; }
  }

  /** Without a scheme ("localhost:5000") there are only two pieces, so nothing to fall back on. */
  lemma TwoPiecesNoFallback(host: string, rest: string)
    requires ':' !in host && ':' !in rest
    ensures ServerUrlWithFallback(host + ":" + rest).alternatives == []
  {
    assert host + ":" + rest == host + [':'] + rest;
    SplitConcat(host, rest, ':');
    SplitNoSeparator(host, ':');
    SplitNoSeparator(rest, ':');
  }

  /** The URLs `get_pending_cards` tries, in order. */
  function Candidates(url: string): (urls: seq<string>)
    ensures (|urls| == 1 || |urls| == 10) && urls[0] == url
  {
    [url] + ServerUrlWithFallback(url).alternatives
  }
}
