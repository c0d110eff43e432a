/** The static DNS table the crawler consults before the system resolver:
    a text of `ip host` lines read into a map from host to a set of IPs,
    and a service object that answers lookups from that map for the two
    HTTP client libraries. */
module DnsService {
  import opened Wrappers
  import opened Text

  /** Host name to the set of IPs recorded for it. */
  type Records = map<string, set<string>>

  /** `line.split()` did not give exactly two fields. */
  datatype RecordError = MalformedLine(line: string)

  /** The characters `str.splitlines()` ends a line at. */
  predicate IsLineBreak(c: char) {
    c == '\n' || c == '\r' || ('\U{0B}' <= c <= '\U{0C}') || ('\U{1C}' <= c <= '\U{1E}') ||
    c == '\U{85}' || c == '\U{2028}' || c == '\U{2029}'
  }

  /** The length of the first line of `text`. */
  function LineLen(text: string): (n: nat)
    ensures n <= |text|
    ensures forall i :: 0 <= i < n ==> !IsLineBreak(text[i])
    ensures n < |text| ==> IsLineBreak(text[n])
  {
    if text == [] || IsLineBreak(text[0]) then 0 else 1 + LineLen(text[1..])
  }

  /** `text.splitlines()`: a line ends at each line break, `\r\n` counting
      as one, and a break at the very end opens no further line. */
  function Lines(text: string): (r: seq<string>)
    ensures text == [] <==> r == []
    ensures forall k :: 0 <= k < |r| ==> forall i :: 0 <= i < |r[k]| ==> !IsLineBreak(r[k][i])
    decreases |text|
  {
    if text == [] then []
    else
      var n := LineLen(text);
      if n == |text| then [text]
      else
        var next := if text[n] == '\r' && n + 1 < |text| && text[n + 1] == '\n' then n + 2 else n + 1;
        [text[..n]] + Lines(text[next..])
  }

  /** Lines without breaks, the last one not empty, joined with `\n`
      split back into themselves. */
  lemma {:induction false} LinesOfJoin(ls: seq<string>)
    requires ls != [] && ls[|ls| - 1] != []
    requires forall k :: 0 <= k < |ls| ==> forall i :: 0 <= i < |ls[k]| ==> !IsLineBreak(ls[k][i])
    ensures Lines(Join(ls, '\n')) == ls
    decreases |ls|
  {
    var text := Join(ls, '\n');
    if |ls| == 1 {
      assert LineLen(text) == |text|;
    } else {
      var rest := Join(ls[1..], '\n');
      assert text == ls[0] + ['\n'] + rest;
      var n := LineLen(text);
      assert text[|ls[0]|] == '\n';
      assert n == |ls[0]|;
      assert text[n + 1..] == rest;
      assert text[..n] == ls[0];
      LinesOfJoin(ls[1..]);
      assert ls == [ls[0]] + ls[1..];
    }
  }

  predicate WellFormed(line: string) {
    |Words(line)| == 2
  }

  /** `records[host].add(ip)` for one `ip host` line. */
  function AddLine(m: Records, line: string): Result<Records, RecordError> {
    var w := Words(line);
    if |w| != 2 then Err(MalformedLine(line))
    else
      var known := if w[1] in m then m[w[1]] else {};
      Ok(m[w[1] := known + {w[0]}])
  }

  /** The loop of `_read_records` over a prefix of the lines; the first
      malformed line stops it. */
  function Collect(lines: seq<string>): Result<Records, RecordError>
    decreases |lines|
  {
    if lines == [] then Ok(map[])
    else
      match Collect(lines[..|lines| - 1])
      case Err(e) => Err(e)
      case Ok(m) => AddLine(m, lines[|lines| - 1])
  }

  /** `_read_records(text)`. */
  function ReadRecordsSpec(text: string): Result<Records, RecordError> {
    Collect(Lines(Strip(text)))
  }

  /** The IPs that the well-formed lines give for `host`. */
  function IpsOn(lines: seq<string>, host: string): set<string> {
    set i | 0 <= i < |lines| && WellFormed(lines[i]) && Words(lines[i])[1] == host :: Words(lines[i])[0]
  }

  /** `_read_records`: fills the table one line at a time. */
  method ReadRecords(text: string) returns (r: Result<Records, RecordError>)
    ensures r == ReadRecordsSpec(text)
  {
    var lines := Lines(Strip(text));
    var records: Records := map[];
    var i := 0;
    while i < |lines|
      invariant 0 <= i <= |lines|
      invariant Collect(lines[..i]) == Ok(records)
    {
      CollectNext(lines, i, records);
      var w := Words(lines[i]);
      if |w| != 2 {
        CollectStops(lines, i + 1);
        return Err(MalformedLine(lines[i]));
      }
      var ip, host := w[0], w[1];
      var known := if host in records then records[host] else {};
      records := records[host := known + {ip}];
      i := i + 1;
    }
    assert lines[..i] == lines;
    return Ok(records);
  }

  // ---- what the table holds -------------------------------------------

  /** One more line of `Collect`. */
  lemma {:induction false} CollectNext(lines: seq<string>, i: nat, records: Records)
    requires i < |lines| && Collect(lines[..i]) == Ok(records)
    ensures Collect(lines[..i + 1]) == AddLine(records, lines[i])
  {
    assert lines[..i + 1][..i] == lines[..i];
  }

  /** Once a prefix fails, the whole read fails the same way. */
  lemma {:induction false} CollectStops(lines: seq<string>, n: nat)
    requires n <= |lines| && Collect(lines[..n]).Err?
    ensures Collect(lines) == Collect(lines[..n])
    decreases |lines| - n
  {
    if n < |lines| {
      assert lines[..n + 1][..n] == lines[..n];
      CollectStops(lines, n + 1);
    } else {
      assert lines[..n] == lines;
    }
  }

  lemma {:induction false} IpsOnSnoc(lines: seq<string>, line: string, host: string)
    ensures IpsOn(lines + [line], host) ==
      IpsOn(lines, host) + (if WellFormed(line) && Words(line)[1] == host then {Words(line)[0]} else {})
  {
    var all := lines + [line];
    forall ip | ip in IpsOn(all, host)
      ensures ip in IpsOn(lines, host) + (if WellFormed(line) && Words(line)[1] == host then {Words(line)[0]} else {})
    {
      var i :| 0 <= i < |all| && WellFormed(all[i]) && Words(all[i])[1] == host && Words(all[i])[0] == ip;
      if i < |lines| {
        assert all[i] == lines[i];
      }
    }
    forall ip | ip in IpsOn(lines, host) ensures ip in IpsOn(all, host) {
      var i :| 0 <= i < |lines| && WellFormed(lines[i]) && Words(lines[i])[1] == host && Words(lines[i])[0] == ip;
      assert all[i] == lines[i];
    }
    if WellFormed(line) && Words(line)[1] == host {
      assert all[|lines|] == line;
    }
  }

  /** Reading succeeds exactly when every line has two fields. */
  lemma {:induction false} CollectOk(lines: seq<string>)
    ensures Collect(lines).Ok? <==> forall i :: 0 <= i < |lines| ==> WellFormed(lines[i])
    decreases |lines|
  {
    if lines != [] {
      var init := lines[..|lines| - 1];
      CollectOk(init);
      assert forall i :: 0 <= i < |init| ==> init[i] == lines[i];
    }
  }

  /** A successful read maps each named host to exactly the IPs of the
      lines naming it, and holds no other host. */
  lemma {:induction false} CollectExact(lines: seq<string>, host: string)
    requires Collect(lines).Ok?
    ensures host in Collect(lines).value <==> IpsOn(lines, host) != {}
    ensures host in Collect(lines).value ==> Collect(lines).value[host] == IpsOn(lines, host)
    decreases |lines|
  {
    if lines == [] {
      assert IpsOn(lines, host) == {};
    } else {
      var init := lines[..|lines| - 1];
      var last := lines[|lines| - 1];
      assert lines == init + [last];
      CollectExact(init, host);
      IpsOnSnoc(init, last, host);
    }
  }

  /** The malformed line reported is the first one. */
  lemma {:induction false} CollectError(lines: seq<string>)
    requires Collect(lines).Err?
    ensures exists i :: (0 <= i < |lines| && !WellFormed(lines[i]) &&
      Collect(lines).error == MalformedLine(lines[i]) &&
      forall j :: 0 <= j < i ==> WellFormed(lines[j]))
    decreases |lines|
  {
    var init := lines[..|lines| - 1];
    var last := lines[|lines| - 1];
    assert forall i :: 0 <= i < |init| ==> init[i] == lines[i];
    if Collect(init).Err? {
      CollectError(init);
      var i :| 0 <= i < |init| && !WellFormed(init[i]) &&
        Collect(init).error == MalformedLine(init[i]) &&
        forall j :: 0 <= j < i ==> WellFormed(init[j]);
      assert lines[i] == init[i];
    } else {
      CollectOk(init);
      assert !WellFormed(lines[|lines| - 1]);
    }
  }

  /** Two lines naming the same host, such as the two `rsshub.app` lines of
      the built-in table, give that host both IPs. */
  lemma {:induction false} SameHostTwice(ip1: string, ip2: string, host: string)
    requires ip1 != [] && forall i :: 0 <= i < |ip1| ==> !IsSpace(ip1[i])
    requires ip2 != [] && forall i :: 0 <= i < |ip2| ==> !IsSpace(ip2[i])
    requires host != [] && forall i :: 0 <= i < |host| ==> !IsSpace(host[i])
    ensures Collect([ip1 + " " + host, ip2 + " " + host]) == Ok(map[host := {ip1, ip2}])
  {
    TwoWords(ip1, host);
    TwoWords(ip2, host);
    var l1, l2 := ip1 + " " + host, ip2 + " " + host;
    CollectTwo(l1, l2);
    AddFirstLine(ip1, host, l1);
    AddSecondLine(ip1, ip2, host, l2);
  }

  lemma {:induction false} AddFirstLine(ip: string, host: string, line: string)
    requires Words(line) == [ip, host]
    ensures AddLine(map[], line) == Ok(map[host := {ip}])
  {
    assert {} + {ip} == {ip};
  }

  lemma {:induction false} AddSecondLine(ip1: string, ip2: string, host: string, line: string)
    requires Words(line) == [ip2, host]
    ensures AddLine(map[host := {ip1}], line) == Ok(map[host := {ip1, ip2}])
  {
    assert {ip1} + {ip2} == {ip1, ip2};
    assert map[host := {ip1}][host := {ip1, ip2}] == map[host := {ip1, ip2}];
  }

  /** `Collect` on two lines: the second is added to what the first gave. */
  lemma {:induction false} CollectTwo(l1: string, l2: string)
    ensures Collect([l1, l2]) ==
      match AddLine(map[], l1)
      case Err(e) => Err(e)
      case Ok(m) => AddLine(m, l2)
  {
    var lines := [l1, l2];
    assert lines[..1] == [l1];
    assert lines[..1][..0] == [];
    var empty: Records := map[];
    assert Collect(lines[..1][..0]) == Ok(empty);
    assert Collect(lines[..1]) == AddLine(empty, l1);
  }

  lemma {:induction false} TwoWords(a: string, b: string)
    requires a != [] && forall i :: 0 <= i < |a| ==> !IsSpace(a[i])
    requires b != [] && forall i :: 0 <= i < |b| ==> !IsSpace(b[i])
    ensures Words(a + " " + b) == [a, b]
  {
    var s := a + " " + b;
    WordLenOf(a, " " + b);
    assert s[..|a|] == a;
    assert s[|a|..] == " " + b;
    assert (" " + b)[1..] == b;
    WordsOfWord(b);
  }

  lemma {:induction false} WordLenOf(a: string, rest: string)
    requires forall i :: 0 <= i < |a| ==> !IsSpace(a[i])
    requires rest != [] && IsSpace(rest[0])
    ensures WordLen(a + rest) == |a|
    decreases |a|
  {
    if a != [] {
      assert (a + rest)[1..] == a[1..] + rest;
      WordLenOf(a[1..], rest);
    }
  }

  // ---- the service --------------------------------------------------------

  /** `socket.AF_INET` and `socket.AI_NUMERICHOST` on Linux. */
  const AfInet := 2
  const AiNumericHost := 4

  /** One address entry for aiohttp's resolver. */
  datatype AddrInfo = AddrInfo(hostname: string, host: string, port: int, family: int, proto: int, flags: int)

  /** The entry `resolve_aiohttp` builds for one IP. */
  predicate EntryFor(e: AddrInfo, host: string, port: int) {
    e.hostname == host && e.port == port && e.family == AfInet && e.proto == 0 && e.flags == AiNumericHost
  }

  /** The IPs the entries point at. */
  function HostSet(entries: seq<AddrInfo>): set<string> {
    if entries == [] then {} else HostSet(entries[..|entries| - 1]) + {entries[|entries| - 1].host}
  }

  class DNSService {
    /** The hosts refreshed from DNS-over-HTTPS (their list order is not
        modelled). */
    var hosts: set<string>
    var records: Records

    /** `DNSService(client, records)`: the hosts are those of the initial
        table; `records or {}` treats a missing table as empty. */
    constructor (initial: Option<Records>)
      ensures records == initial.GetOr(map[])
      ensures hosts == initial.GetOr(map[]).Keys
    {
      hosts := initial.GetOr(map[]).Keys;
      records := initial.GetOr(map[]);
    }

    /** `update(records)`: the table is replaced, not merged, and the host
        list stays as it was. */
    method Update(newRecords: Records)
      modifies this
      ensures records == newRecords
      ensures hosts == old(hosts)
    {
      records := newRecords;
    }

    predicate IsResolvedHost(host: string)
      reads this
    {
      host in records && records[host] != {}
    }

    /** `resolve(host)`: the recorded IPs, none for an unknown host (as a
        set: the order of `list(ip_set)` is not modelled). */
    function Resolve(host: string): (r: set<string>)
      reads this
      ensures r != {} <==> IsResolvedHost(host)
      ensures IsResolvedHost(host) ==> r == records[host]
    {
      if host in records then records[host] else {}
    }

    /** `resolve_urllib3(host)`: one of the recorded IPs, chosen at random,
        else the host itself. */
    method ResolveUrllib3(host: string) returns (target: string)
      ensures IsResolvedHost(host) ==> target in records[host]
      ensures !IsResolvedHost(host) ==> target == host
    {
      var ips := Resolve(host);
      if ips != {} {
        target :| target in ips;
      } else {
        target := host;
      }
    }

    /** `resolve_aiohttp(host, port)`: one entry per recorded IP, each with
        the host name and the requested port. */
    method ResolveAiohttp(host: string, port: int) returns (entries: seq<AddrInfo>)
      ensures |entries| == |Resolve(host)|
      ensures HostSet(entries) == Resolve(host)
      ensures forall i, j :: 0 <= i < j < |entries| ==> entries[i].host != entries[j].host
      ensures forall i :: 0 <= i < |entries| ==> EntryFor(entries[i], host, port)
    {
      var ips := Resolve(host);
      entries := [];
      var remaining := ips;
      while remaining != {}
        invariant remaining <= ips
        invariant HostSet(entries) == ips - remaining
        invariant |entries| + |remaining| == |ips|
        invariant forall i, j :: 0 <= i < j < |entries| ==> entries[i].host != entries[j].host
        invariant forall i :: 0 <= i < |entries| ==> EntryFor(entries[i], host, port)
        decreases |remaining|
      {
        var ip :| ip in remaining;
        var e := AddrInfo(host, ip, port, AfInet, 0, AiNumericHost);
        AddEntry(entries, ips, remaining, e, host, port);
        entries := entries + [e];
        remaining := remaining - {ip};
      }
    }
  }

  /** One pass of the loop of `resolve_aiohttp`: an entry for a pending IP
      keeps the entries distinct, well-formed and in step with the IPs done. */
  lemma {:induction false} AddEntry(entries: seq<AddrInfo>, ips: set<string>, remaining: set<string>, e: AddrInfo, host: string, port: int)
    requires remaining <= ips && e.host in remaining && EntryFor(e, host, port)
    requires HostSet(entries) == ips - remaining && |entries| + |remaining| == |ips|
    requires forall i, j :: 0 <= i < j < |entries| ==> entries[i].host != entries[j].host
    requires forall i :: 0 <= i < |entries| ==> EntryFor(entries[i], host, port)
    ensures HostSet(entries + [e]) == ips - (remaining - {e.host})
    ensures |entries + [e]| + |remaining - {e.host}| == |ips|
    ensures forall i, j :: 0 <= i < j < |entries + [e]| ==> (entries + [e])[i].host != (entries + [e])[j].host
    ensures forall i :: 0 <= i < |entries + [e]| ==> EntryFor((entries + [e])[i], host, port)
  {
    HostSetMembers(entries);
    var next := entries + [e];
    assert next[..|entries|] == entries;
  }

  lemma {:induction false} HostSetMembers(entries: seq<AddrInfo>)
    ensures forall i :: 0 <= i < |entries| ==> entries[i].host in HostSet(entries)
    ensures forall h :: h in HostSet(entries) ==> exists i :: 0 <= i < |entries| && entries[i].host == h
    decreases |entries|
  {
    if entries != [] {
      var init := entries[..|entries| - 1];
      HostSetMembers(init);
      assert forall i :: 0 <= i < |init| ==> init[i] == entries[i];
    }
  }
}
