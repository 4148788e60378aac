/**
 * The writer-address shape of main_test.go: `^(?P<protocol>http)://(?P<host>[^:/\s]+):(?P<port>\d{1,5})$`,
 * as a declarative predicate (`Matches`) and a hand-written recogniser that
 * extracts the three named groups (`ExtractComponents`).
 */
module AddressShape {
  import opened Wrappers
  import opened Text

  const Protocol := "http"

  /** `\s` of Go's regexp syntax: tab, newline, form feed, carriage return and space. */
  predicate IsSpace(c: char) {
    c == '\t' || c == '\n' || c == '\U{000C}' || c == '\r' || c == ' '
  }

  /** One character of `[^:/\s]`. */
  predicate IsHostChar(c: char) {
    c != ':' && c != '/' && !IsSpace(c)
  }

  /** `[^:/\s]+` */
  predicate ValidHost(host: string) {
    |host| >= 1 && forall k :: 0 <= k < |host| ==> IsHostChar(host[k])
  }

  /** `\d{1,5}` (ASCII digits only). */
  predicate ValidPort(port: string) {
    1 <= |port| <= 5 && AllDigits(port)
  }

  /** The named groups of a match. */
  datatype Components = Components(protocol: string, host: string, port: string)

  function Render(c: Components): string {
    c.protocol + "://" + c.host + ":" + c.port
  }

  /** The anchored pattern: the whole address is `http://` host `:` port. */
  ghost predicate Matches(address: string) {
    exists host, port :: ValidHost(host) && ValidPort(port) && address == Render(Components(Protocol, host, port))
  }

  /** Finds the groups: the host runs up to the first `:` after `http://`, the port is the rest. */
  function ExtractComponents(address: string): (r: Option<Components>)
    ensures r.Some? ==> r.value.protocol == Protocol && ValidHost(r.value.host) && ValidPort(r.value.port)
    ensures r.Some? ==> Render(r.value) == address
  {
    var prefix := Protocol + "://";
    if !IsPrefix(prefix, address) then None
    else
      var rest := address[|prefix|..];
      if ':' !in rest then None
      else
        var i := IndexOf(rest, ':');
        var c := Components(Protocol, rest[..i], rest[i + 1..]);
        if ValidHost(c.host) && ValidPort(c.port) then
          RenderSplit(prefix, address, i);
          Some(c)
        else None
  }

  /** Cutting an address after its prefix and around a colon of the rest gives back the address. */
  lemma RenderSplit(prefix: string, address: string, i: nat)
    requires IsPrefix(prefix, address)
    requires i < |address| - |prefix| && address[|prefix| + i] == ':'
    ensures prefix + address[|prefix|..][..i] + ":" + address[|prefix|..][i + 1..] == address
  {
    var rest := address[|prefix|..];
    assert rest == rest[..i] + ":" + rest[i + 1..];
    assert address == prefix + rest;
  }

  /** In `host + ":" + tail` with a colon-free host, the first colon is the one after the host. */
  lemma FirstColonAfterHost(host: string, tail: string)
    requires ':' !in host
    ensures ':' in host + ":" + tail
    ensures IndexOf(host + ":" + tail, ':') == |host|
  {
    var rest := host + ":" + tail;
    assert rest[|host|] == ':';
    assert forall k :: 0 <= k < |host| ==> rest[k] == host[k];
    var i := IndexOf(rest, ':');
  }

  /**
   * How the recogniser reads `http://` host `:` tail when the host has no colon:
   * it accepts exactly when host and tail have the shape of the host and port groups.
   */
  lemma {:induction false} Decompose(host: string, tail: string)
    requires ':' !in host
    ensures ExtractComponents(Protocol + "://" + host + ":" + tail) ==
            if ValidHost(host) && ValidPort(tail) then Some(Components(Protocol, host, tail)) else None
  {
    var address := Protocol + "://" + host + ":" + tail;
    var rest := host + ":" + tail;
    assert address == "http://" + rest;
    assert address[|"http://"|..] == rest;
    FirstColonAfterHost(host, tail);
    assert rest[..|host|] == host;
    assert rest[|host| + 1..] == tail;
  }

  /** An address that differs from `http://` at one of its first seven positions is rejected. */
  lemma {:induction false} RejectedBeforeHost(address: string, k: nat)
    requires k < |Protocol + "://"|
    requires k >= |address| || address[k] != (Protocol + "://")[k]
    ensures ExtractComponents(address) == None
  {
    var prefix := Protocol + "://";
    if IsPrefix(prefix, address) {
      assert address[..|prefix|][k] == prefix[k];
    }
  }

  /** The recogniser accepts exactly the addresses of the pattern, and then returns their groups. */
  lemma ExtractIffMatches(address: string)
    ensures ExtractComponents(address).Some? <==> Matches(address)
    ensures Matches(address) ==>
              exists host, port :: ExtractComponents(address) == Some(Components(Protocol, host, port)) &&
                                   address == Render(Components(Protocol, host, port))
  {
    if Matches(address) {
      var host, port :| ValidHost(host) && ValidPort(port) && address == Render(Components(Protocol, host, port));
      assert ':' !in host by {
        forall k | 0 <= k < |host| ensures host[k] != ':' {
          assert IsHostChar(host[k]);
        }
      }
      Decompose(host, port);
    }
    if ExtractComponents(address).Some? {
      var c := ExtractComponents(address).value;
      assert ValidHost(c.host) && ValidPort(c.port) && address == Render(Components(Protocol, c.host, c.port));
    }
  }

  /** Round trip: the groups of an accepted address render back to it, and rendering valid groups is accepted. */
  lemma RoundTrip(c: Components)
    requires c.protocol == Protocol && ValidHost(c.host) && ValidPort(c.port)
    ensures ExtractComponents(Render(c)) == Some(c)
  {
    assert ':' !in c.host by {
      forall k | 0 <= k < |c.host| ensures c.host[k] != ':' {
        assert IsHostChar(c.host[k]);
      }
    }
    Decompose(c.host, c.port);
  }

  /** The accepted vectors `http://localhost:1` … `http://localhost:12345` of TestSuccessfulAddressComponentsExtraction. */
  lemma AcceptedLocalhost(port: string)
    requires port in ["1", "12", "123", "1234", "12345"]
    ensures ExtractComponents("http://localhost:" + port) == Some(Components("http", "localhost", port))
  {
    assert ValidHost("localhost");
    assert ValidPort(port);
    assert Render(Components("http", "localhost", port)) == "http://localhost:" + port;
    RoundTrip(Components("http", "localhost", port));
  }

  /** The accepted vector `http://com.ft.address:8080`. */
  lemma AcceptedDottedHost()
    ensures ExtractComponents("http://com.ft.address:8080") == Some(Components("http", "com.ft.address", "8080"))
  {
    assert ValidHost("com.ft.address");
    assert Render(Components("http", "com.ft.address", "8080")) == "http://com.ft.address:8080";
    RoundTrip(Components("http", "com.ft.address", "8080"));
  }

  /** Rejected vectors whose scheme is not `http`: `tcp://…`, `://…`, `//…`, `localhost:8080` and `:`. */
  lemma RejectedScheme(address: string)
    requires address in ["tcp://localhost:8080", "://localhost:8080", "//localhost:8080", "localhost:8080", ":"]
    ensures ExtractComponents(address) == None
  {
    assert address[0] != 'h';
    RejectedBeforeHost(address, 0);
  }

  /** Rejected vectors whose separator is not `://`: `http:://…`, `http:/…` and the two `http:…` forms. */
  lemma RejectedSeparator(address: string)
    requires address in ["http:://localhost:8080", "http:/localhost:8080", "http:localhost:8080", "http:localhost:123456"]
    ensures ExtractComponents(address) == None
  {
    var k := if address[5] != '/' then 5 else 6;
    assert address[k] != (Protocol + "://")[k];
    RejectedBeforeHost(address, k);
  }

  /** Rejected vectors with an empty host: `http://:8080` and `http://:`. */
  lemma RejectedEmptyHost(tail: string)
    requires tail in ["8080", ""]
    ensures ExtractComponents("http://:" + tail) == None
  {
    assert "http://:" + tail == Protocol + "://" + "" + ":" + tail;
    Decompose("", tail);
  }

  /**
   * Rejected vectors after `http://localhost:` — a second colon, a missing port,
   * a trailing `/`, a path and a trailing `:`: the rest is not 1 to 5 digits.
   */
  lemma RejectedPort(tail: string)
    requires tail in [":8080", "", "8080/", "8080/path", "8080:"]
    ensures ExtractComponents("http://localhost:" + tail) == None
  {
    assert ':' !in "localhost";
    assert "http://localhost:" + tail == Protocol + "://" + "localhost" + ":" + tail;
    assert !ValidPort(tail) by {
      if tail == ":8080" {
        assert !IsDigit(tail[0]);
      } else if tail == "8080/" || tail == "8080:" {
        assert !IsDigit(tail[4]);
      }
    }
    Decompose("localhost", tail);
  }
}
